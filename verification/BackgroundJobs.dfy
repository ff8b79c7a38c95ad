/** The background jobs of one type: any number of producers, one worker, one lock. Between
    two steps of a thread the others may take theirs. */
module BackgroundJobs {
  type Job = nat                           // each is created once
  type Thread = nat

  datatype Producer = Idle | Entered(job: Job) | Linked | Counted

  datatype Worker =
    | Top                                  // at the head of the loop, with the lock
    | Waiting                              // in pthread_cond_wait
    | Woken                                // signalled, but still without the lock
    | Running(job: Job)
    | Done(job: Job)                       // the job is done, the lock not yet taken again
    | Removing(job: Job)
    | Removed

  datatype Holder = Nobody | ByWorker | By(thread: Thread)

  /** The last three fields only record what happened. */
  datatype State = State(
    lock: Holder,
    producers: map<Thread, Producer>,
    worker: Worker,
    jobs: seq<Job>,
    pending: nat,
    created: seq<Job>,
    started: seq<Job>,
    finished: seq<Job>)

  datatype Step =
    | Enter(thread: Thread, job: Job)      // bioCreateBackgroundJob up to the lock
    | Link(thread: Thread)
    | Count(thread: Thread)
    | Leave(thread: Thread)                // signal and unlock
    | Take                                 // the worker looks at the queue
    | Spurious                             // pthread_cond_wait may return unasked
    | Finish
    | Relock
    | Remove
    | Discount

  function Pc(s: State, t: Thread): Producer {
    if t in s.producers then s.producers[t] else Idle
  }

  function Without(jobs: seq<Job>, job: Job): seq<Job> {
    if jobs == [] then [] else if jobs[0] == job then jobs[1..] else [jobs[0]] + Without(jobs[1..], job)
  }

  ghost predicate Enabled(s: State, step: Step) {
    match step
    case Enter(t, job) => s.lock == Nobody && Pc(s, t) == Idle && job !in s.created && (forall u :: Pc(s, u) != Entered(job))
    case Link(t) => Pc(s, t).Entered?
    case Count(t) => Pc(s, t) == Linked
    case Leave(t) => Pc(s, t) == Counted
    case Take => s.worker == Top
    case Spurious => s.worker == Waiting
    case Finish => s.worker.Running?
    case Relock => s.lock == Nobody && (s.worker == Woken || s.worker.Done?)
    case Remove => s.worker.Removing?
    case Discount => s.worker == Removed && s.pending > 0
  }

  function Move(s: State, t: Thread, pc: Producer): State {
    s.(producers := s.producers[t := pc])
  }

  function Next(s: State, step: Step): State
    requires Enabled(s, step)
  {
    match step
    case Enter(t, job) => Move(s, t, Entered(job)).(lock := By(t))
    case Link(t) => Move(s, t, Linked).(jobs := s.jobs + [Pc(s, t).job], created := s.created + [Pc(s, t).job])
    case Count(t) => Move(s, t, Counted).(pending := s.pending + 1)
    case Leave(t) => Move(s, t, Idle).(lock := Nobody, worker := if s.worker == Waiting then Woken else s.worker)
    case Take =>
      if s.jobs == [] then s.(lock := Nobody, worker := Waiting)
      else s.(lock := Nobody, worker := Running(s.jobs[0]), started := s.started + [s.jobs[0]])
    case Spurious => s.(worker := Woken)
    case Finish => s.(worker := Done(s.worker.job), finished := s.finished + [s.worker.job])
    case Relock => s.(lock := ByWorker, worker := if s.worker == Woken then Top else Removing(s.worker.job))
    case Remove => s.(worker := Removed, jobs := Without(s.jobs, s.worker.job))
    case Discount => s.(worker := Top, pending := s.pending - 1)
  }

  const START := State(ByWorker, map[], Top, [], 0, [], [], [])

  // ------------------------------------------------------------------------- invariant

  /** Who is inside a critical section holds the lock. */
  ghost predicate LockOk(s: State) {
    && (forall t :: Pc(s, t) != Idle <==> s.lock == By(t))
    && (s.worker == Top || s.worker.Removing? || s.worker == Removed <==> s.lock == ByWorker)
  }

  /** The job in hand is at the head of the queue until it is removed. */
  ghost predicate QueueOk(s: State) {
    match s.worker
    case Running(j) => s.jobs != [] && s.jobs[0] == j && s.created == s.finished + s.jobs && s.started == s.finished + [j]
    case Done(j) => s.jobs != [] && s.jobs[0] == j && s.created == s.finished + s.jobs[1..] && s.started == s.finished
                    && s.finished != [] && s.finished[|s.finished| - 1] == j
    case Removing(j) => s.jobs != [] && s.jobs[0] == j && s.created == s.finished + s.jobs[1..] && s.started == s.finished
    case _ => s.created == s.finished + s.jobs && s.started == s.finished
  }

  /** The counter lags or leads by one inside the critical sections. */
  ghost predicate CountOk(s: State) {
    && s.pending + (if s.lock.By? && Pc(s, s.lock.thread) == Linked then 1 else 0)
       == |s.jobs| + (if s.worker == Removed then 1 else 0)
  }

  /** A worker that sleeps has nothing to do, unless a producer is about to wake it. */
  ghost predicate WakeOk(s: State) {
    s.worker == Waiting && s.jobs != [] ==> s.lock.By? && (Pc(s, s.lock.thread) == Linked || Pc(s, s.lock.thread) == Counted)
  }

  ghost predicate CreatedOnce(s: State) {
    && (forall i, j | 0 <= i < j < |s.created| :: s.created[i] != s.created[j])
    && (forall t :: Pc(s, t).Entered? ==> Pc(s, t).job !in s.created)
  }

  ghost predicate Inv(s: State) {
    LockOk(s) && QueueOk(s) && CountOk(s) && WakeOk(s) && CreatedOnce(s)
  }

  lemma NextKeeps(s: State, step: Step)
    requires Inv(s) && Enabled(s, step)
    ensures Inv(Next(s, step))
  {
    match step {
      case Enter(t, job) => ProducerKeeps(s, step, t);
      case Link(t) => ProducerKeeps(s, step, t);
      case Count(t) => ProducerKeeps(s, step, t);
      case Leave(t) => ProducerKeeps(s, step, t);
      case _ => WorkerKeeps(s, step);
    }
  }

  lemma ProducerKeeps(s: State, step: Step, t: Thread)
    requires Inv(s) && Enabled(s, step) && (step.Enter? || step.Link? || step.Count? || step.Leave?) && step.thread == t
    ensures Inv(Next(s, step))
  {
    var r := Next(s, step);
    assert forall u | u != t :: Pc(r, u) == Pc(s, u);
  }

  lemma WorkerKeeps(s: State, step: Step)
    requires Inv(s) && Enabled(s, step) && !step.Enter? && !step.Link? && !step.Count? && !step.Leave?
    ensures Inv(Next(s, step))
  {
    var r := Next(s, step);
    assert forall u :: Pc(r, u) == Pc(s, u);
  }

  // --------------------------------------------------------------------- whole runs

  ghost predicate IsRun(run: seq<State>, steps: seq<Step>) {
    && |run| == |steps| + 1 && run[0] == START
    && forall i | 0 <= i < |steps| :: Enabled(run[i], steps[i]) && run[i + 1] == Next(run[i], steps[i])
  }

  lemma {:induction false} RunKeeps(run: seq<State>, steps: seq<Step>, n: nat)
    requires IsRun(run, steps) && n < |run|
    ensures Inv(run[n])
    decreases n
  {
    if n > 0 {
      RunKeeps(run, steps, n - 1);
      NextKeeps(run[n - 1], steps[n - 1]);
    }
  }

  /** In every state of every run: jobs are started in the order of their creation, each at
      most once and each only after the one before it finished; and the job that is running
      is still at the head of the queue. */
  lemma JobsInOrder(run: seq<State>, steps: seq<Step>, n: nat)
    requires IsRun(run, steps) && n < |run|
    ensures var s := run[n];
            && (forall i, j | 0 <= i < j < |s.created| :: s.created[i] != s.created[j])
            && s.started <= s.created && s.finished <= s.started && |s.started| <= |s.finished| + 1
            && (s.worker.Running? ==> s.jobs != [] && s.jobs[0] == s.worker.job && s.started == s.finished + [s.worker.job])
  {
    RunKeeps(run, steps, n);
  }

  /** Whenever nobody holds the lock, the counter is the number of jobs created and not yet
      finished, give or take the one the worker has just finished; so zero means that all
      are finished. */
  lemma PendingIsExact(run: seq<State>, steps: seq<Step>, n: nat)
    requires IsRun(run, steps) && n < |run| && run[n].lock == Nobody
    ensures var s := run[n];
            && s.pending == |s.created| - |s.finished| + (if s.worker.Done? then 1 else 0)
            && (s.pending == 0 ==> s.finished == s.created)
  {
    RunKeeps(run, steps, n);
  }

  /** No wakeup is lost: a worker asleep while nobody holds the lock has an empty queue. */
  lemma NoLostWakeup(run: seq<State>, steps: seq<Step>, n: nat)
    requires IsRun(run, steps) && n < |run| && run[n].lock == Nobody && run[n].worker == Waiting
    ensures run[n].jobs == [] && run[n].finished == run[n].created
  {
    RunKeeps(run, steps, n);
  }

  /** Some thread can always move: the queue never deadlocks while a job is left. */
  lemma NeverStuck(run: seq<State>, steps: seq<Step>, n: nat) returns (step: Step)
    requires IsRun(run, steps) && n < |run| && run[n].finished != run[n].created
    ensures Enabled(run[n], step)
  {
    RunKeeps(run, steps, n);
    var s := run[n];
    match s.lock {
      case By(t) =>
        step := if Pc(s, t).Entered? then Link(t) else if Pc(s, t) == Linked then Count(t) else Leave(t);
      case ByWorker =>
        step := if s.worker == Top then Take else if s.worker.Removing? then Remove else Discount;
      case Nobody =>
        step := if s.worker.Running? then Finish else Relock;
    }
  }
}
