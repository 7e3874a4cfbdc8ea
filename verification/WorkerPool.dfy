/** The elastic worker pool: worker threads that wait, work, time out and leave, and a
    manager thread that adds workers from readings that may be out of date. One step is
    one access to a shared counter or one piece of a critical section under `mutex_`. */
module WorkerPool {
  type Job = nat

  /** Where a worker thread is. `Entering` to `Shrinking` hold the mutex, except `Sleeping`,
      which is inside the timed wait. */
  datatype Worker =
    | Looping                 // about to test running_
    | Locking                 // wants the mutex
    | Entering                // counted as idle, about to test the wait predicate
    | Sleeping
    | Woken(got: bool)        // the wait has returned, still counted as idle
    | Deciding(got: bool)     // no longer counted as idle
    | Shrinking               // has seen threadCount_ > minThreads_
    | Working(job: Job)
    | Leaving                 // has seen running_ == false
    | Dead
    | Broken                  // took the front of an empty queue

  /** Where the thread is that adds workers: the constructor first, then the manager. */
  datatype Manager =
    | Top
    | Slept
    | SeenBacklog(backlog: nat)
    | SeenCount(backlog: nat, count: int)
    | Adding(left: nat, init: bool)
    | Spawning(left: nat, init: bool)
    | Gone

  datatype Config = Config(minThreads: nat, maxThreads: nat, scaleFactor: nat)

  datatype State = State(
    config: Config,
    running: bool,
    threadCount: int,
    idleThreadCount: int,
    workers: map<nat, Worker>,
    nextWorker: nat,
    manager: Manager,
    tasks: seq<Job>,
    submitted: seq<Job>,
    taken: seq<Job>)

  datatype Step =
    | TestRunning(w: nat)
    | Enter(w: nat)
    | Evaluate(w: nat)
    | WakeUp(w: nat, timedOut: bool)
    | CountDown(w: nat)
    | Decide(w: nat)
    | Shrink(w: nat)
    | Finish(w: nat)
    | Leave(w: nat)
    | AddTask(job: Job)
    | Stop
    | ManagerTop
    | ReadBacklog
    | ReadCount
    | ReadIdle
    | CountThread
    | SpawnThread

  predicate HoldsMutex(pc: Worker) {
    pc.Entering? || pc.Woken? || pc.Deciding? || pc.Shrinking?
  }

  ghost predicate MutexFree(s: State) {
    forall w <- s.workers :: !HoldsMutex(s.workers[w])
  }

  predicate WaitOver(s: State) {
    s.tasks != [] || !s.running
  }

  /** The constructor is about to start `minThreads_` workers. */
  ghost predicate Init(s: State) {
    && s.config.minThreads <= s.config.maxThreads && s.config.scaleFactor >= 1
    && s.running && s.threadCount == 0 && s.idleThreadCount == 0
    && s.workers == map[] && s.manager == Adding(s.config.minThreads, true)
    && s.tasks == [] && s.submitted == [] && s.taken == []
  }

  ghost predicate Enabled(s: State, a: Step) {
    match a
    case TestRunning(w) => w in s.workers && s.workers[w].Looping?
    case Enter(w) => w in s.workers && s.workers[w].Locking? && MutexFree(s)
    case Evaluate(w) => w in s.workers && s.workers[w].Entering?
    case WakeUp(w, _) => w in s.workers && s.workers[w].Sleeping? && MutexFree(s)
    case CountDown(w) => w in s.workers && s.workers[w].Woken?
    case Decide(w) => w in s.workers && s.workers[w].Deciding?
    case Shrink(w) => w in s.workers && s.workers[w].Shrinking?
    case Finish(w) => w in s.workers && s.workers[w].Working?
    case Leave(w) => w in s.workers && s.workers[w].Leaving?
    case AddTask(_) => MutexFree(s)
    case Stop => true
    case ManagerTop => s.manager.Top?
    case ReadBacklog => s.manager.Slept? && MutexFree(s)
    case ReadCount => s.manager.SeenBacklog?
    case ReadIdle => s.manager.SeenCount?
    case CountThread => s.manager.Adding?
    case SpawnThread => s.manager.Spawning?
  }

  function Move(s: State, w: nat, pc: Worker): State {
    s.(workers := s.workers[w := pc])
  }

  /** The rest of the critical section after the wait. */
  function DoDecide(s: State, w: nat, got: bool): State {
    if !s.running && s.tasks == [] then Move(s, w, Dead).(threadCount := s.threadCount - 1)
    else if !got then
      if s.threadCount > s.config.minThreads then Move(s, w, Shrinking) else Move(s, w, Looping)
    else if s.tasks == [] then Move(s, w, Broken)
    else
      Move(s, w, Working(s.tasks[0])).(tasks := s.tasks[1..], taken := s.taken + [s.tasks[0]])
  }

  /** How many workers the manager starts for a backlog and two counter readings. */
  function ToAdd(config: Config, backlog: nat, count: int, idle: int): nat
    requires config.scaleFactor >= 1
  {
    var effective := backlog - idle;
    if effective > 0 && count < config.maxThreads then
      var needed := effective / config.scaleFactor + 1;
      var canAdd := config.maxThreads - count;
      if needed < canAdd then needed else canAdd
    else 0
  }

  /** The manager adds nobody unless the backlog exceeds the idle readings and there is room;
      otherwise the smallest number whose scale factors exceed the backlog, as far as the
      maximum allows. */
  lemma ScalingRule(config: Config, backlog: nat, count: int, idle: int)
    requires config.scaleFactor >= 1
    ensures
      var n, effective := ToAdd(config, backlog, count, idle), backlog - idle;
      && (n == 0 <==> effective <= 0 || count >= config.maxThreads)
      && (n > 0 ==> count + n <= config.maxThreads && (n - 1) * config.scaleFactor <= effective)
      && (n > 0 && count + n < config.maxThreads ==> effective < n * config.scaleFactor)
  {
    var effective := backlog - idle;
    if effective > 0 {
      var q := effective / config.scaleFactor;
      var n := ToAdd(config, backlog, count, idle);
      assert q * config.scaleFactor <= effective < (q + 1) * config.scaleFactor;
      if 0 < n <= q {
        assert (n - 1) * config.scaleFactor <= q * config.scaleFactor;
      }
    }
  }

  function Apply(s: State, a: Step): State
    requires s.config.scaleFactor >= 1 && Enabled(s, a)
  {
    match a
    case TestRunning(w) => Move(s, w, if s.running then Locking else Leaving)
    case Enter(w) => Move(s, w, Entering).(idleThreadCount := s.idleThreadCount + 1)
    case Evaluate(w) => Move(s, w, if WaitOver(s) then Woken(true) else Sleeping)
    case WakeUp(w, timedOut) =>
      if WaitOver(s) then Move(s, w, Woken(true))
      else if timedOut then Move(s, w, Woken(false))
      else s
    case CountDown(w) => Move(s, w, Deciding(s.workers[w].got)).(idleThreadCount := s.idleThreadCount - 1)
    case Decide(w) => DoDecide(s, w, s.workers[w].got)
    case Shrink(w) => Move(s, w, Dead).(threadCount := s.threadCount - 1)
    case Finish(w) => Move(s, w, Looping)
    case Leave(w) => Move(s, w, Dead).(threadCount := s.threadCount - 1)
    case AddTask(job) => s.(tasks := s.tasks + [job], submitted := s.submitted + [job])
    case Stop => s.(running := false)
    case ManagerTop => s.(manager := if s.running then Slept else Gone)
    case ReadBacklog => s.(manager := SeenBacklog(|s.tasks|))
    case ReadCount => s.(manager := SeenCount(s.manager.backlog, s.threadCount))
    case ReadIdle =>
      s.(manager := Adding(ToAdd(s.config, s.manager.backlog, s.manager.count, s.idleThreadCount), false))
    case CountThread =>
      if s.manager.left == 0 then s.(manager := Top)
      else s.(manager := Spawning(s.manager.left - 1, s.manager.init), threadCount := s.threadCount + 1)
    case SpawnThread =>
      s.(workers := s.workers[s.nextWorker := Looping], nextWorker := s.nextWorker + 1,
         manager := Adding(s.manager.left, s.manager.init))
  }

  // ---------- the counters ----------

  function Live(workers: map<nat, Worker>): set<nat> {
    set w | w in workers && !workers[w].Dead?
  }

  predicate Waits(pc: Worker) {
    pc.Entering? || pc.Sleeping? || pc.Woken?
  }

  function Waiters(workers: map<nat, Worker>): set<nat> {
    set w | w in workers && Waits(workers[w])
  }

  ghost predicate Counting(s: State) {
    && (forall w <- s.workers :: w < s.nextWorker)
    && s.threadCount == |Live(s.workers)| + (if s.manager.Spawning? then 1 else 0)
    && s.idleThreadCount == |Waiters(s.workers)|
  }

  /** Moving one live worker changes the two sets by that worker. */
  lemma MoveCounts(workers: map<nat, Worker>, w: nat, pc: Worker)
    requires w in workers && !workers[w].Dead?
    ensures |Live(workers[w := pc])| == |Live(workers)| - (if pc.Dead? then 1 else 0)
    ensures |Waiters(workers[w := pc])| ==
            |Waiters(workers)| - (if Waits(workers[w]) then 1 else 0) + (if Waits(pc) then 1 else 0)
  {
    var moved := workers[w := pc];
    assert Live(moved) == if pc.Dead? then Live(workers) - {w} else Live(workers);
    var others := Waiters(workers) - {w};
    assert Waiters(workers) == if Waits(workers[w]) then others + {w} else others;
    assert Waiters(moved) == if Waits(pc) then others + {w} else others;
  }

  lemma SpawnCounts(workers: map<nat, Worker>, w: nat)
    requires w !in workers
    ensures |Live(workers[w := Looping])| == |Live(workers)| + 1
    ensures Waiters(workers[w := Looping]) == Waiters(workers)
  {
    assert Live(workers[w := Looping]) == Live(workers) + {w};
  }

  /** The worker whose step it is. */
  function Mover(a: Step): nat {
    match a
    case TestRunning(w) => w
    case Enter(w) => w
    case Evaluate(w) => w
    case WakeUp(w, _) => w
    case CountDown(w) => w
    case Decide(w) => w
    case Shrink(w) => w
    case Finish(w) => w
    case Leave(w) => w
    case _ => 0
  }

  predicate OfWorker(a: Step) {
    || a.TestRunning? || a.Enter? || a.Evaluate? || a.WakeUp? || a.CountDown?
    || a.Decide? || a.Shrink? || a.Finish? || a.Leave?
  }

  /** Each exit path counts once, each wait is counted in and out. */
  lemma WorkerStepCounts(s: State, a: Step)
    requires s.config.scaleFactor >= 1 && Enabled(s, a) && OfWorker(a)
    ensures
      var s' := Apply(s, a);
      var w := Mover(a);
      && w in s.workers && !s.workers[w].Dead? && w in s'.workers
      && s'.workers == s.workers[w := s'.workers[w]]
      && s'.manager == s.manager && s'.nextWorker == s.nextWorker
      && s'.threadCount == s.threadCount - (if s'.workers[w].Dead? then 1 else 0)
      && s'.idleThreadCount == s.idleThreadCount
           - (if Waits(s.workers[w]) then 1 else 0) + (if Waits(s'.workers[w]) then 1 else 0)
  {
    match a
    case TestRunning(w) =>
    case Enter(w) =>
    case Evaluate(w) =>
    case WakeUp(w, _) =>
      assert s.workers[w := s.workers[w]] == s.workers;
    case CountDown(w) =>
    case Decide(w) =>
    case Shrink(w) =>
    case Finish(w) =>
    case Leave(w) =>
  }

  lemma {:induction false} KeepsCounting(s: State, a: Step)
    requires s.config.scaleFactor >= 1 && Counting(s) && Enabled(s, a)
    ensures Counting(Apply(s, a))
  {
    var s' := Apply(s, a);
    if OfWorker(a) {
      WorkerStepCounts(s, a);
      MoveCounts(s.workers, Mover(a), s'.workers[Mover(a)]);
    } else if a.SpawnThread? {
      SpawnCounts(s.workers, s.nextWorker);
    }
  }

  // ---------- the bounds ----------

  /** The upper bound survives the manager's stale reading, because nobody else adds. */
  ghost predicate Bounded(s: State) {
    match s.manager
    case Adding(left, init) => s.threadCount + left <= s.config.maxThreads
    case Spawning(left, init) => s.threadCount + left <= s.config.maxThreads
    case SeenCount(_, count) => s.threadCount <= count <= s.config.maxThreads
    case _ => s.threadCount <= s.config.maxThreads
  }

  predicate Initialising(m: Manager) {
    (m.Adding? || m.Spawning?) && m.init
  }

  /** The lower bound: the constructor builds up to it and, while the pool is running, a
      worker that gives up has seen more than the minimum under the mutex. */
  ghost predicate EnoughWorkers(s: State) {
    && (s.running && Initialising(s.manager) ==> s.threadCount + s.manager.left == s.config.minThreads)
    && (s.running && !Initialising(s.manager) ==> s.threadCount >= s.config.minThreads)
    && (forall w <- s.workers :: s.running && s.workers[w].Shrinking? ==> s.threadCount > s.config.minThreads)
    && (forall w <- s.workers :: s.running ==> !s.workers[w].Leaving?)
  }

  ghost predicate OneHolder(s: State) {
    && (forall v, w ::
          v in s.workers && w in s.workers && HoldsMutex(s.workers[v]) && HoldsMutex(s.workers[w]) ==> v == w)
    && (forall w <- s.workers :: w < s.nextWorker)
  }

  /** What a worker that holds the mutex knows about the queue. */
  ghost predicate Knows(s: State, pc: Worker) {
    && ((pc.Woken? || pc.Deciding?) ==> if pc.got then WaitOver(s) else s.tasks == [])
    && (pc.Shrinking? ==> s.tasks == [])
    && !pc.Broken?
  }

  ghost predicate QueueSafe(s: State) {
    && (forall w <- s.workers :: Knows(s, s.workers[w]))
    && s.taken + s.tasks == s.submitted
  }

  lemma KeepsBounded(s: State, a: Step)
    requires s.config.scaleFactor >= 1 && Bounded(s) && Enabled(s, a)
    ensures Bounded(Apply(s, a))
  {
  }

  lemma KeepsEnoughWorkers(s: State, a: Step)
    requires s.config.scaleFactor >= 1 && EnoughWorkers(s) && OneHolder(s) && Enabled(s, a)
    ensures EnoughWorkers(Apply(s, a))
  {
  }

  lemma KeepsOneHolder(s: State, a: Step)
    requires s.config.scaleFactor >= 1 && OneHolder(s) && Enabled(s, a)
    ensures OneHolder(Apply(s, a))
  {
  }

  lemma KeepsOrder(s: State, a: Step)
    requires s.config.scaleFactor >= 1 && Enabled(s, a) && s.taken + s.tasks == s.submitted
    ensures Apply(s, a).taken + Apply(s, a).tasks == Apply(s, a).submitted
  {
    if a.Decide? && s.tasks != [] {
      assert s.taken + [s.tasks[0]] + s.tasks[1..] == s.taken + s.tasks;
    }
  }

  lemma KeepsKnowing(s: State, a: Step, w: nat)
    requires s.config.scaleFactor >= 1 && OneHolder(s) && QueueSafe(s) && Enabled(s, a)
    requires w in Apply(s, a).workers
    ensures Knows(Apply(s, a), Apply(s, a).workers[w])
  {
    if w in s.workers {
      assert Knows(s, s.workers[w]);
    }
  }

  lemma KeepsQueueSafe(s: State, a: Step)
    requires s.config.scaleFactor >= 1 && OneHolder(s) && QueueSafe(s) && Enabled(s, a)
    ensures QueueSafe(Apply(s, a))
  {
    KeepsOrder(s, a);
    forall w <- Apply(s, a).workers ensures Knows(Apply(s, a), Apply(s, a).workers[w]) {
      KeepsKnowing(s, a, w);
    }
  }

  // ---------- whole runs ----------

  ghost predicate Inv(s: State) {
    && s.config.scaleFactor >= 1
    && Counting(s) && Bounded(s) && EnoughWorkers(s) && OneHolder(s) && QueueSafe(s)
  }

  ghost predicate Run(s: State, steps: seq<Step>, t: State)
    decreases |steps|
  {
    if steps == [] then s == t
    else s.config.scaleFactor >= 1 && Enabled(s, steps[0]) && Run(Apply(s, steps[0]), steps[1..], t)
  }

  ghost predicate Reachable(t: State) {
    exists s, steps :: Init(s) && Run(s, steps, t)
  }

  lemma {:induction false} RunKeepsInv(s: State, steps: seq<Step>, t: State)
    requires Inv(s) && Run(s, steps, t)
    ensures Inv(t)
    decreases |steps|
  {
    if steps != [] {
      hide Enabled, Apply, Counting, Bounded, EnoughWorkers, OneHolder, QueueSafe;
      var a := steps[0];
      KeepsCounting(s, a);
      KeepsBounded(s, a);
      KeepsEnoughWorkers(s, a);
      KeepsOneHolder(s, a);
      KeepsQueueSafe(s, a);
      RunKeepsInv(Apply(s, a), steps[1..], t);
    }
  }

  lemma ReachableInv(t: State)
    requires Reachable(t)
    ensures Inv(t)
  {
    var s, steps :| Init(s) && Run(s, steps, t);
    assert Live(s.workers) == {} && Waiters(s.workers) == {};
    RunKeepsInv(s, steps, t);
  }

  /** The counters are the truth in every reachable state, also during shutdown: one live
      thread per count (the thread being started included), one waiter per idle count. */
  lemma WorkerAccounting(s: State)
    requires Reachable(s)
    ensures s.threadCount == |Live(s.workers)| + (if s.manager.Spawning? then 1 else 0)
    ensures s.idleThreadCount == |Waiters(s.workers)|
  {
    ReachableInv(s);
  }

  /** The pool never outgrows its maximum, and while it runs and has been set up it never
      falls below its minimum. */
  lemma WorkerBounds(s: State)
    requires Reachable(s)
    ensures s.threadCount <= s.config.maxThreads
    ensures s.running && !Initialising(s.manager) ==> s.config.minThreads <= s.threadCount
  {
    ReachableInv(s);
  }

  /** `front()` is never taken on an empty queue, and tasks leave in the order they came. */
  lemma QueueDiscipline(s: State)
    requires Reachable(s)
    ensures forall w <- s.workers :: !s.workers[w].Broken?
    ensures s.taken + s.tasks == s.submitted
  {
    ReachableInv(s);
    forall w <- s.workers ensures !s.workers[w].Broken? {
      assert Knows(s, s.workers[w]);
    }
  }

  /** A worker runs the jobs in the order they came: the one it starts is the first not yet
      taken. */
  lemma StartsTheNextJob(s: State, w: nat, job: Job)
    requires Reachable(s) && s.config.scaleFactor >= 1
    requires Enabled(s, Decide(w)) && Apply(s, Decide(w)).workers[w] == Working(job)
    ensures
      var s' := Apply(s, Decide(w));
      && |s.taken| < |s.submitted| && job == s.submitted[|s.taken|]
      && s'.taken == s.submitted[..|s.taken| + 1] && s'.tasks == s.submitted[|s.taken| + 1..]
  {
    ReachableInv(s);
    assert s.submitted == s.taken + s.tasks;
  }

  // ---------- what is done when nobody comes between ----------

  /** A job in the queue is taken by the next worker that looks, with or without having slept. */
  lemma LookingTakesAJob(s: State, w: nat)
    requires s.config.scaleFactor >= 1 && w in s.workers && s.tasks != []
    requires s.workers[w].Entering? || (s.workers[w].Sleeping? && MutexFree(s))
    ensures
      var first := if s.workers[w].Entering? then Evaluate(w) else WakeUp(w, false);
      && Enabled(s, first) && Enabled(Apply(s, first), CountDown(w))
      && Enabled(Apply(Apply(s, first), CountDown(w)), Decide(w))
      && Apply(Apply(Apply(s, first), CountDown(w)), Decide(w)) ==
         s.(workers := s.workers[w := Working(s.tasks[0])], idleThreadCount := s.idleThreadCount - 1,
            tasks := s.tasks[1..], taken := s.taken + [s.tasks[0]])
  {
    var first := if s.workers[w].Entering? then Evaluate(w) else WakeUp(w, false);
    var s1 := Apply(s, first);
    assert s1.workers == s.workers[w := Woken(true)];
    var s2 := Apply(s1, CountDown(w));
    assert s2.workers == s.workers[w := Deciding(true)];
    assert s2.workers[w := Working(s.tasks[0])] == s.workers[w := Working(s.tasks[0])];
  }

  /** A worker whose wait has timed out on an empty queue leaves exactly when there are more
      than the minimum; otherwise it goes on. */
  lemma TimeoutShrinks(s: State, w: nat)
    requires s.config.scaleFactor >= 1 && w in s.workers && s.workers[w].Sleeping? && MutexFree(s)
    requires s.running && s.tasks == []
    ensures
      var s1 := Apply(s, WakeUp(w, true));
      var s2 := Apply(s1, CountDown(w));
      var s3 := Apply(s2, Decide(w));
      && s2.idleThreadCount == s.idleThreadCount - 1 && s2.threadCount == s.threadCount
      && if s.threadCount > s.config.minThreads then
           && Enabled(s3, Shrink(w))
           && Apply(s3, Shrink(w)).workers[w] == Dead && Apply(s3, Shrink(w)).threadCount == s.threadCount - 1
         else s3.workers[w] == Looping && s3.threadCount == s.threadCount
  {
  }

  /** After a job, and at the end. */
  lemma WorkerGoesOn(s: State, w: nat)
    requires s.config.scaleFactor >= 1 && w in s.workers
    ensures s.workers[w].Working? ==> Apply(s, Finish(w)) == s.(workers := s.workers[w := Looping])
    ensures s.workers[w].Looping? ==>
              Apply(s, TestRunning(w)) == s.(workers := s.workers[w := if s.running then Locking else Leaving])
    ensures s.workers[w].Deciding? && !s.running && s.tasks == [] ==>
              Apply(s, Decide(w)) == s.(workers := s.workers[w := Dead], threadCount := s.threadCount - 1)
  {
  }

  /** From outside: a job is queued behind the others, and stopping ends the manager's rounds. */
  lemma OutsideSteps(s: State, job: Job)
    requires s.config.scaleFactor >= 1
    ensures MutexFree(s) ==> Apply(s, AddTask(job)) == s.(tasks := s.tasks + [job], submitted := s.submitted + [job])
    ensures !Apply(s, Stop).running && Apply(s, Stop).(running := s.running) == s
    ensures s.manager.Top? ==> Apply(s, ManagerTop).manager == if s.running then Slept else Gone
  {
  }

  /** The manager reads the backlog and both counters. */
  lemma ManagerDecides(s: State)
    requires s.config.scaleFactor >= 1 && s.manager.Slept? && MutexFree(s)
    ensures
      var s1 := Apply(s, ReadBacklog);
      var s2 := Apply(s1, ReadCount);
      Apply(s2, ReadIdle) ==
      s.(manager := Adding(ToAdd(s.config, |s.tasks|, s.threadCount, s.idleThreadCount), false))
  {
  }

  /** `left` rounds of counting a thread and starting it. */
  function Grown(s: State, left: nat): State
    requires s.config.scaleFactor >= 1 && s.manager.Adding? && s.manager.left == left
    decreases left
  {
    if left == 0 then Apply(s, CountThread) else Grown(Apply(Apply(s, CountThread), SpawnThread), left - 1)
  }

  /** What was decided is done: so many new workers, each counted. */
  lemma {:induction false} ManagerGrows(s: State, left: nat)
    requires s.config.scaleFactor >= 1 && s.manager.Adding? && s.manager.left == left
    requires forall w <- s.workers :: w < s.nextWorker
    ensures
      var t := Grown(s, left);
      && t.threadCount == s.threadCount + left && t.nextWorker == s.nextWorker + left && t.manager == Top
      && (forall w <- s.workers :: w in t.workers && t.workers[w] == s.workers[w])
      && (forall w :: s.nextWorker <= w < t.nextWorker ==> w in t.workers && t.workers[w] == Looping)
      && (forall w <- t.workers :: w < t.nextWorker)
      && t.tasks == s.tasks && t.idleThreadCount == s.idleThreadCount && t.running == s.running
    decreases left
  {
    if left > 0 {
      var s1 := Apply(Apply(s, CountThread), SpawnThread);
      ManagerGrows(s1, left - 1);
      assert s1.workers[s.nextWorker] == Looping;
    }
  }
}
