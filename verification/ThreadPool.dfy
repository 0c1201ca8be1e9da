/** The bounded thread pool of thread_pool.h. The two critical sections and `stop` are methods of a
    class; the threads around them are a step machine in which a condition variable may wake a
    sleeper for no reason (section 30.5.1 of ISO C++11) and `notify_one` comes after the unlock. */
module ThreadPool {

  type Task = nat

  // ---------------------------------------------------------------------------
  // What the mutex protects
  // ---------------------------------------------------------------------------

  datatype Monitor = Monitor(tasks: seq<Task>, stop: bool)

  /** What a worker's critical section decides: sleep on, leave, or run the front task. */
  datatype Fetched = Sleep | Quit | Take(task: Task)

  function Fetch(m: Monitor): Fetched
  {
    if !m.stop && m.tasks == [] then Sleep
    else if m.tasks == [] then Quit
    else Take(m.tasks[0])
  }

  function AfterFetch(m: Monitor): Monitor
  {
    if Fetch(m).Take? then m.(tasks := m.tasks[1..]) else m
  }

  predicate MayPush(m: Monitor, limit: nat)
  {
    m.stop || |m.tasks| < limit
  }

  class Pool {
    var tasks: seq<Task>
    var stop: bool
    const workLimits: nat

    constructor (workLimits: nat)
      ensures View() == Monitor([], false) && this.workLimits == workLimits
    {
      tasks, stop := [], false;
      this.workLimits := workLimits;
    }

    function View(): Monitor
      reads this
    {
      Monitor(tasks, stop)
    }

    /** The worker's section: evaluate the wait condition and act on it. */
    method FetchSection() returns (r: Fetched)
      modifies this
      ensures r == Fetch(old(View())) && View() == AfterFetch(old(View()))
    {
      if !(stop || tasks != []) {
        return Sleep;
      }
      if stop && tasks == [] {
        return Quit;
      }
      r := Take(tasks[0]);
      tasks := tasks[1..];
    }

    /** The producer's section: push when there is room or the pool is stopping. */
    method EnqueueSection(x: Task) returns (pushed: bool)
      modifies this
      ensures pushed == MayPush(old(View()), workLimits)
      ensures View() == if pushed then Monitor(old(tasks) + [x], old(stop)) else old(View())
    {
      if !(stop || |tasks| < workLimits) {
        return false;
      }
      tasks := tasks + [x];
      return true;
    }

    method SetStop()
      modifies this
      ensures View() == Monitor(old(tasks), true)
    {
      stop := true;
    }
  }

  // ---------------------------------------------------------------------------
  // Threads
  // ---------------------------------------------------------------------------

  /** Where a call of `enqueue` returns to: an outside caller, or the task a worker is running. */
  datatype Home = External | Inside(task: Task)

  datatype Pc =
    | Idle                       // a worker awake at the head of its loop
    | Asleep                     // a worker waiting on `condition`
    | Exited                     // a worker that has returned
    | Out                        // an outside thread not in the pool
    | Run(task: Task)            // a worker running a task
    | Enq(x: Task, home: Home)   // in `enqueue`, about to take the lock
    | Full(x: Task, home: Home)  // in `enqueue`, waiting on `condition_notfull`
    | Owe(home: Home)            // pushed and unlocked, `notify_one` still to come

  datatype Stopper = NotStopped | MustBroadcast | Joining | Joined

  datatype Config = Config(workers: nat, limit: nat)

  /** The machine, with the history of tasks pushed, started and finished, and the number of tasks
      pushed when every worker had already returned. */
  datatype State = State(mon: Monitor, threads: seq<Pc>, stopper: Stopper,
                         pushed: seq<Task>, started: seq<Task>, finished: seq<Task>, strays: nat)

  datatype Event =
    | Test(w: nat)                       // a worker takes the lock and evaluates its condition
    | Finish(w: nat)                     // a task returns
    | Call(i: nat, x: Task)              // a thread calls `enqueue`
    | Push(i: nat)                       // a producer takes the lock and evaluates its condition
    | NotifyOne(i: nat, woken: nat)      // `notify_one`; `woken` is an asleep worker if there is one
    | Spurious(i: nat)                   // a sleeper wakes for no reason
    | SetStop | Broadcast | Join

  function Return(h: Home): Pc
  {
    match h case External => Out case Inside(t) => Run(t)
  }

  function WakeFull(p: Pc): Pc
  {
    if p.Full? then Enq(p.x, p.home) else p
  }

  function WakeAsleep(p: Pc): Pc
  {
    if p == Asleep then Idle else p
  }

  /** `condition_notfull.notify_all()` and `condition.notify_all()`. */
  function NotifyNotFull(ts: seq<Pc>): seq<Pc>
  {
    seq(|ts|, i requires 0 <= i < |ts| => WakeFull(ts[i]))
  }

  function NotifyWorkers(ts: seq<Pc>): seq<Pc>
  {
    seq(|ts|, i requires 0 <= i < |ts| => WakeAsleep(ts[i]))
  }

  predicate AllExited(c: Config, ts: seq<Pc>)
    requires c.workers <= |ts|
  {
    forall w | 0 <= w < c.workers :: ts[w] == Exited
  }

  predicate Enabled(c: Config, s: State, e: Event)
  {
    c.workers <= |s.threads| &&
    match e
    case Test(w) => w < c.workers && s.threads[w] == Idle
    case Finish(w) => w < c.workers && s.threads[w].Run?
    case Call(i, x) => i < |s.threads| && (s.threads[i] == Out || s.threads[i].Run?)
    case Push(i) => i < |s.threads| && s.threads[i].Enq?
    case NotifyOne(i, j) =>
      && i < |s.threads| && s.threads[i].Owe?
      && (Asleep in s.threads ==> j < |s.threads| && s.threads[j] == Asleep)
    case Spurious(i) => i < |s.threads| && (s.threads[i] == Asleep || s.threads[i].Full?)
    case SetStop => s.stopper == NotStopped
    case Broadcast => s.stopper == MustBroadcast
    case Join => s.stopper == Joining && AllExited(c, s.threads)
  }

  function Step(c: Config, s: State, e: Event): State
    requires Enabled(c, s, e)
  {
    match e
    case Test(w) =>
      (match Fetch(s.mon)
       case Sleep => s.(threads := s.threads[w := Asleep])
       case Quit => s.(threads := s.threads[w := Exited])
       case Take(t) =>
         s.(mon := AfterFetch(s.mon), threads := NotifyNotFull(s.threads)[w := Run(t)], started := s.started + [t]))
    case Finish(w) => s.(threads := s.threads[w := Idle], finished := s.finished + [s.threads[w].task])
    case Call(i, x) =>
      s.(threads := s.threads[i := Enq(x, if s.threads[i].Run? then Inside(s.threads[i].task) else External)])
    case Push(i) =>
      var p := s.threads[i];
      if MayPush(s.mon, c.limit) then
        s.(mon := s.mon.(tasks := s.mon.tasks + [p.x]), threads := s.threads[i := Owe(p.home)],
           pushed := s.pushed + [p.x], strays := s.strays + if AllExited(c, s.threads) then 1 else 0)
      else s.(threads := s.threads[i := Full(p.x, p.home)])
    case NotifyOne(i, j) =>
      var back := s.threads[i := Return(s.threads[i].home)];
      s.(threads := if Asleep in s.threads then back[j := Idle] else back)
    case Spurious(i) => s.(threads := s.threads[i := WakeAsleep(WakeFull(s.threads[i]))])
    case SetStop => s.(mon := s.mon.(stop := true), stopper := MustBroadcast)
    case Broadcast => s.(threads := NotifyWorkers(s.threads), stopper := Joining)
    case Join => s.(stopper := Joined)
  }

  predicate Init(c: Config, s: State)
  {
    && c.workers <= |s.threads|
    && (forall i | 0 <= i < |s.threads| :: s.threads[i] == if i < c.workers then Idle else Out)
    && s == State(Monitor([], false), s.threads, NotStopped, [], [], [], 0)
  }

  ghost predicate Runs(c: Config, s: State, es: seq<Event>, s': State)
    decreases |es|
  {
    if es == [] then s == s' else Enabled(c, s, es[0]) && Runs(c, Step(c, s, es[0]), es[1..], s')
  }

  ghost predicate Reachable(c: Config, s: State)
  {
    c.workers <= |s.threads| && exists s0: State, es: seq<Event> :: Init(c, s0) && Runs(c, s0, es, s)
  }

  // ---------------------------------------------------------------------------
  // Counting over threads
  // ---------------------------------------------------------------------------

  /** Idle workers and owed notifications: each can still put a sleeping worker's task to work. */
  function Credit(p: Pc): nat
  {
    if p == Idle || p.Owe? then 1 else 0
  }

  function Credits(ts: seq<Pc>): nat
  {
    if ts == [] then 0 else Credit(ts[0]) + Credits(ts[1..])
  }

  /** Whether a thread is in the middle of task `t`. */
  function Holds(p: Pc, t: Task): nat
  {
    match p
    case Run(u) => if u == t then 1 else 0
    case Enq(_, Inside(u)) => if u == t then 1 else 0
    case Full(_, Inside(u)) => if u == t then 1 else 0
    case Owe(Inside(u)) => if u == t then 1 else 0
    case _ => 0
  }

  /** How many threads are in the middle of a task `t`. */
  function Held(ts: seq<Pc>, t: Task): nat
  {
    if ts == [] then 0 else Holds(ts[0], t) + Held(ts[1..], t)
  }

  lemma {:induction false} UpdateCredits(ts: seq<Pc>, i: nat, p: Pc)
    requires i < |ts|
    ensures Credits(ts[i := p]) + Credit(ts[i]) == Credits(ts) + Credit(p)
  {
    if i == 0 {
      assert ts[i := p][1..] == ts[1..];
    } else {
      UpdateCredits(ts[1..], i - 1, p);
      assert ts[i := p][1..] == ts[1..][i - 1 := p];
    }
  }

  lemma {:induction false} UpdateHeld(ts: seq<Pc>, i: nat, p: Pc, t: Task)
    requires i < |ts|
    ensures Held(ts[i := p], t) + Holds(ts[i], t) == Held(ts, t) + Holds(p, t)
  {
    if i == 0 {
      assert ts[i := p][1..] == ts[1..];
    } else {
      UpdateHeld(ts[1..], i - 1, p, t);
      assert ts[i := p][1..] == ts[1..][i - 1 := p];
    }
  }

  lemma {:induction false} NotifyNotFullKeeps(ts: seq<Pc>, t: Task)
    ensures Credits(NotifyNotFull(ts)) == Credits(ts) && Held(NotifyNotFull(ts), t) == Held(ts, t)
  {
    if ts != [] {
      NotifyNotFullKeeps(ts[1..], t);
      assert NotifyNotFull(ts)[1..] == NotifyNotFull(ts[1..]);
    }
  }

  lemma {:induction false} NotifyWorkersKeeps(ts: seq<Pc>, t: Task)
    ensures Held(NotifyWorkers(ts), t) == Held(ts, t)
  {
    if ts != [] {
      NotifyWorkersKeeps(ts[1..], t);
      assert NotifyWorkers(ts)[1..] == NotifyWorkers(ts[1..]);
    }
  }

  lemma {:induction false} NoCredits(ts: seq<Pc>)
    requires forall p | p in ts :: Credit(p) == 0
    ensures Credits(ts) == 0
  {
    if ts != [] {
      NoCredits(ts[1..]);
    }
  }

  // ---------------------------------------------------------------------------
  // The invariant
  // ---------------------------------------------------------------------------

  /** Which program points a worker, or an outside thread, can be at. */
  predicate PcFits(c: Config, i: nat, p: Pc)
  {
    match p
    case Idle | Asleep | Exited | Run(_) => i < c.workers
    case Out => i >= c.workers
    case Enq(_, h) => h.Inside? <==> i < c.workers
    case Full(_, h) => h.Inside? <==> i < c.workers
    case Owe(h) => h.Inside? <==> i < c.workers
  }

  ghost predicate InShape(c: Config, s: State)
  {
    && c.workers <= |s.threads|
    && forall i | 0 <= i < |s.threads| :: PcFits(c, i, s.threads[i])
  }

  /** Nobody sleeps through work: the wakeups that are still due cover the queued tasks. */
  ghost predicate WakeupsCover(c: Config, s: State)
  {
    && (Asleep in s.threads ==> |s.mon.tasks| <= Credits(s.threads))
    && (Asleep in s.threads && s.mon.stop ==> s.stopper == MustBroadcast)
    && (forall p | p in s.threads && p.Full? :: |s.mon.tasks| >= c.limit)
  }

  function Times(ts: seq<Task>, t: Task): nat
  {
    multiset(ts)[t]
  }

  ghost predicate HistoryHolds(s: State)
  {
    && s.pushed == s.started + s.mon.tasks
    && forall t :: Times(s.started, t) == Times(s.finished, t) + Held(s.threads, t)
  }

  ghost predicate NobodyFull(ts: seq<Pc>)
  {
    forall p | p in ts :: !p.Full?
  }

  ghost predicate StopHolds(c: Config, s: State)
    requires c.workers <= |s.threads|
  {
    && (s.mon.stop <==> s.stopper != NotStopped)
    && (!s.mon.stop ==> |s.mon.tasks| <= c.limit)
    && (Exited in s.threads ==> s.mon.stop)
    && (Exited in s.threads && c.limit > 0 ==> NobodyFull(s.threads))
    && (s.stopper == Joined ==> AllExited(c, s.threads))
    && (if AllExited(c, s.threads) then |s.mon.tasks| == s.strays else s.strays == 0)
  }

  ghost predicate Inv(c: Config, s: State)
  {
    && c.workers > 0 && InShape(c, s) && WakeupsCover(c, s) && HistoryHolds(s) && StopHolds(c, s)
  }

  lemma InitInv(c: Config, s: State)
    requires c.workers > 0 && Init(c, s)
    ensures Inv(c, s)
  {
    assert s.threads[0] == Idle;
    forall t
      ensures Held(s.threads, t) == 0
    {
      NothingHeld(s.threads, t);
    }
  }

  lemma {:induction false} NothingHeld(ts: seq<Pc>, t: Task)
    requires forall i | 0 <= i < |ts| :: Holds(ts[i], t) == 0
    ensures Held(ts, t) == 0
  {
    if ts != [] {
      NothingHeld(ts[1..], t);
    }
  }

  lemma StepShape(c: Config, s: State, e: Event)
    requires InShape(c, s) && Enabled(c, s, e)
    ensures InShape(c, Step(c, s, e)) && |Step(c, s, e).threads| == |s.threads|
  {
  }

  /** A step that moves one thread and leaves the queue alone. */
  lemma MoveKeepsWakeups(c: Config, s: State, i: nat, p: Pc, s': State)
    requires WakeupsCover(c, s) && i < |s.threads|
    requires s'.threads == s.threads[i := p] && s'.mon == s.mon && s'.stopper == s.stopper
    requires s.mon.tasks == [] || Credit(s.threads[i]) <= Credit(p)
    requires p == Asleep ==> s.mon.tasks == [] && !s.mon.stop
    requires p.Full? ==> |s.mon.tasks| >= c.limit
    ensures WakeupsCover(c, s')
  {
    UpdateCredits(s.threads, i, p);
    assert forall q | q in s'.threads :: q == p || q in s.threads;
  }

  /** A worker that takes a task uses up its own credit and wakes every waiting producer. */
  lemma TakeKeepsWakeups(c: Config, s: State, w: nat)
    requires InShape(c, s) && WakeupsCover(c, s) && Enabled(c, s, Test(w)) && Fetch(s.mon).Take?
    ensures WakeupsCover(c, Step(c, s, Test(w)))
  {
    var woken := NotifyNotFull(s.threads);
    var t := s.mon.tasks[0];
    NotifyNotFullKeeps(s.threads, t);
    assert woken[w] == Idle;
    UpdateCredits(woken, w, Run(t));
    forall q | q in woken[w := Run(t)]
      ensures !q.Full? && (q == Asleep ==> q in s.threads)
    {
      var i :| 0 <= i < |woken| && woken[w := Run(t)][i] == q;
      assert q == Run(t) || q == WakeFull(s.threads[i]);
    }
  }

  /** A push adds a task and, with it, one notification to come. */
  lemma PushKeepsWakeups(c: Config, s: State, i: nat)
    requires InShape(c, s) && WakeupsCover(c, s) && Enabled(c, s, Push(i)) && MayPush(s.mon, c.limit)
    ensures WakeupsCover(c, Step(c, s, Push(i)))
  {
    var p := Owe(s.threads[i].home);
    UpdateCredits(s.threads, i, p);
    assert forall q | q in s.threads[i := p] :: q == p || q in s.threads;
  }

  /** A notification wakes a sleeping worker if there is one, and is not needed if there is none. */
  lemma NotifyKeepsWakeups(c: Config, s: State, i: nat, j: nat)
    requires InShape(c, s) && WakeupsCover(c, s) && Enabled(c, s, NotifyOne(i, j))
    ensures WakeupsCover(c, Step(c, s, NotifyOne(i, j)))
  {
    var p := Return(s.threads[i].home);
    var back := s.threads[i := p];
    UpdateCredits(s.threads, i, p);
    assert forall q | q in back :: q == p || q in s.threads;
    if Asleep in s.threads {
      assert back[j] == Asleep;
      UpdateCredits(back, j, Idle);
      assert forall q | q in back[j := Idle] :: q == Idle || q in back;
    }
  }

  lemma BroadcastKeepsWakeups(c: Config, s: State)
    requires InShape(c, s) && WakeupsCover(c, s) && Enabled(c, s, Broadcast)
    ensures WakeupsCover(c, Step(c, s, Broadcast))
  {
    forall q | q in NotifyWorkers(s.threads)
      ensures q != Asleep && (q.Full? ==> q in s.threads)
    {
      var i :| 0 <= i < |s.threads| && NotifyWorkers(s.threads)[i] == q;
      assert q == WakeAsleep(s.threads[i]);
    }
  }

  lemma StepWakeups(c: Config, s: State, e: Event)
    requires InShape(c, s) && WakeupsCover(c, s) && Enabled(c, s, e)
    requires s.mon.stop <==> s.stopper != NotStopped
    ensures WakeupsCover(c, Step(c, s, e))
  {
    var s' := Step(c, s, e);
    match e
    case Test(w) =>
      if Fetch(s.mon).Take? {
        TakeKeepsWakeups(c, s, w);
      } else {
        MoveKeepsWakeups(c, s, w, if Fetch(s.mon).Sleep? then Asleep else Exited, s');
      }
    case Finish(w) => MoveKeepsWakeups(c, s, w, Idle, s');
    case Call(i, x) => MoveKeepsWakeups(c, s, i, s'.threads[i], s');
    case Push(i) =>
      if MayPush(s.mon, c.limit) {
        PushKeepsWakeups(c, s, i);
      } else {
        MoveKeepsWakeups(c, s, i, s'.threads[i], s');
      }
    case NotifyOne(i, j) => NotifyKeepsWakeups(c, s, i, j);
    case Spurious(i) => MoveKeepsWakeups(c, s, i, s'.threads[i], s');
    case SetStop =>
    case Broadcast => BroadcastKeepsWakeups(c, s);
    case Join =>
  }

  /** Tasks in hand and tasks finished add up to tasks started, before a step and after it. */
  ghost predicate SameBalance(s: State, s': State, t: Task)
  {
    Held(s'.threads, t) + Times(s'.finished, t) + Times(s.started, t)
    == Held(s.threads, t) + Times(s.finished, t) + Times(s'.started, t)
  }

  lemma TestBalance(c: Config, s: State, w: nat, t: Task)
    requires InShape(c, s) && Enabled(c, s, Test(w))
    ensures SameBalance(s, Step(c, s, Test(w)), t)
  {
    match Fetch(s.mon)
    case Sleep => UpdateHeld(s.threads, w, Asleep, t);
    case Quit => UpdateHeld(s.threads, w, Exited, t);
    case Take(u) =>
      var woken := NotifyNotFull(s.threads);
      NotifyNotFullKeeps(s.threads, t);
      assert woken[w] == Idle;
      UpdateHeld(woken, w, Run(u), t);
  }

  lemma FinishBalance(c: Config, s: State, w: nat, t: Task)
    requires InShape(c, s) && Enabled(c, s, Finish(w))
    ensures SameBalance(s, Step(c, s, Finish(w)), t)
  {
    UpdateHeld(s.threads, w, Idle, t);
  }

  lemma NotifyBalance(c: Config, s: State, i: nat, j: nat, t: Task)
    requires InShape(c, s) && Enabled(c, s, NotifyOne(i, j))
    ensures SameBalance(s, Step(c, s, NotifyOne(i, j)), t)
  {
    var back := s.threads[i := Return(s.threads[i].home)];
    UpdateHeld(s.threads, i, Return(s.threads[i].home), t);
    if Asleep in s.threads {
      assert back[j] == Asleep;
      UpdateHeld(back, j, Idle, t);
    }
  }

  lemma StepBalance(c: Config, s: State, e: Event, t: Task)
    requires InShape(c, s) && Enabled(c, s, e)
    ensures SameBalance(s, Step(c, s, e), t)
  {
    var s' := Step(c, s, e);
    match e
    case Test(w) => TestBalance(c, s, w, t);
    case Finish(w) => FinishBalance(c, s, w, t);
    case Call(i, x) => UpdateHeld(s.threads, i, s'.threads[i], t);
    case Push(i) => UpdateHeld(s.threads, i, s'.threads[i], t);
    case NotifyOne(i, j) => NotifyBalance(c, s, i, j, t);
    case Spurious(i) => UpdateHeld(s.threads, i, s'.threads[i], t);
    case SetStop =>
    case Broadcast => NotifyWorkersKeeps(s.threads, t);
    case Join =>
  }

  lemma StepHistory(c: Config, s: State, e: Event)
    requires InShape(c, s) && HistoryHolds(s) && Enabled(c, s, e)
    ensures HistoryHolds(Step(c, s, e))
  {
    var s' := Step(c, s, e);
    forall t
      ensures Times(s'.started, t) == Times(s'.finished, t) + Held(s'.threads, t)
    {
      StepBalance(c, s, e, t);
      assert SameBalance(s, s', t);
    }
    assert s'.pushed == s'.started + s'.mon.tasks;
  }

  /** A worker that has returned never moves again, and nobody returns before the stop. */
  lemma ExitsAreFinal(c: Config, s: State, e: Event)
    requires InShape(c, s) && Enabled(c, s, e)
    requires Exited in s.threads ==> s.mon.stop
    ensures var s' := Step(c, s, e);
            && (AllExited(c, s.threads) ==> AllExited(c, s'.threads))
            && (Exited in s'.threads ==> s'.mon.stop)
            && (AllExited(c, s'.threads) && !AllExited(c, s.threads) ==> s.mon.tasks == [] && e.Test?)
  {
    var ts, s' := s.threads, Step(c, s, e);
    if AllExited(c, ts) {
      forall w | 0 <= w < c.workers
        ensures s'.threads[w] == Exited
      {
        assert ts[w] == Exited;
      }
    } else {
      var w :| 0 <= w < c.workers && ts[w] != Exited;
      assert s'.threads[w] == Exited ==> e == Test(w) && Fetch(s.mon) == Quit;
    }
    if Exited in s'.threads {
      var i :| 0 <= i < |ts| && s'.threads[i] == Exited;
      assert ts[i] == Exited || (e == Test(i) && Fetch(s.mon) == Quit);
    }
  }

  /** Once a worker has returned, no producer waits for room again. */
  lemma ExitMeansNobodyFull(c: Config, s: State, e: Event)
    requires InShape(c, s) && StopHolds(c, s) && WakeupsCover(c, s) && Enabled(c, s, e) && c.limit > 0
    requires Exited in Step(c, s, e).threads
    ensures NobodyFull(Step(c, s, e).threads)
  {
    var ts, s' := s.threads, Step(c, s, e);
    var x :| 0 <= x < |ts| && s'.threads[x] == Exited;
    assert ts[x] == Exited || (e == Test(x) && Fetch(s.mon) == Quit);
    forall i | 0 <= i < |ts|
      ensures !s'.threads[i].Full?
    {
      assert ts[i] in ts;
    }
  }

  lemma StepStop(c: Config, s: State, e: Event)
    requires InShape(c, s) && StopHolds(c, s) && WakeupsCover(c, s) && Enabled(c, s, e)
    ensures InShape(c, Step(c, s, e)) && StopHolds(c, Step(c, s, e))
  {
    StepShape(c, s, e);
    ExitsAreFinal(c, s, e);
    if c.limit > 0 && Exited in Step(c, s, e).threads {
      ExitMeansNobodyFull(c, s, e);
    }
  }

  lemma StepInv(c: Config, s: State, e: Event)
    requires Inv(c, s) && Enabled(c, s, e)
    ensures Inv(c, Step(c, s, e))
  {
    StepShape(c, s, e);
    StepWakeups(c, s, e);
    StepHistory(c, s, e);
    StepStop(c, s, e);
  }

  lemma {:induction false} RunsKeepInv(c: Config, s: State, es: seq<Event>, s': State)
    requires Inv(c, s) && Runs(c, s, es, s')
    ensures Inv(c, s')
    decreases |es|
  {
    if es != [] {
      StepInv(c, s, es[0]);
      RunsKeepInv(c, Step(c, s, es[0]), es[1..], s');
    }
  }

  lemma ReachableInv(c: Config, s: State)
    requires c.workers > 0 && Reachable(c, s)
    ensures Inv(c, s)
  {
    var s0: State, es: seq<Event> :| Init(c, s0) && Runs(c, s0, es, s);
    InitInv(c, s0);
    RunsKeepInv(c, s0, es, s);
  }

  // ---------------------------------------------------------------------------
  // Main results
  // ---------------------------------------------------------------------------

  /** No wakeup is lost, although `notify_one` is called outside the lock: while some worker sleeps,
      the awake workers and the notifications still owed cover the queue; a producer sleeps only on a
      full queue; and after the stop a worker sleeps only until the broadcast. */
  lemma NoLostWakeup(c: Config, s: State)
    requires c.workers > 0 && Reachable(c, s)
    ensures Asleep in s.threads ==> |s.mon.tasks| <= Credits(s.threads)
    ensures forall p | p in s.threads && p.Full? :: |s.mon.tasks| >= c.limit
    ensures Asleep in s.threads && s.mon.stop ==> s.stopper == MustBroadcast
  {
    ReachableInv(c, s);
  }

  /** Tasks start in the order they were pushed, each at most once; none finishes more often than it
      started; and the queue keeps its bound until the pool is stopped. */
  lemma StartsInOrder(c: Config, s: State, t: Task)
    requires c.workers > 0 && Reachable(c, s)
    ensures s.started <= s.pushed && s.pushed[|s.started|..] == s.mon.tasks
    ensures Times(s.finished, t) <= Times(s.started, t)
    ensures !s.mon.stop ==> |s.mon.tasks| <= c.limit
  {
    ReachableInv(c, s);
  }

  /** Nothing is left to happen but spurious wakeups, new calls, a stop or a join. */
  ghost predicate Quiet(s: State)
  {
    s.stopper != MustBroadcast
    && forall p | p in s.threads :: p == Asleep || p == Exited || p == Out || p.Full?
  }

  /** A pool only comes to rest with its work done: the queue is empty and no producer waits, and a
      stopped pool has let every worker return. The exceptions are exactly tasks pushed after the last
      worker returned, and a pool all of whose workers wait for room inside their own tasks. */
  lemma RestMeansDone(c: Config, s: State)
    requires c.workers > 0 && c.limit > 0 && Reachable(c, s) && Quiet(s)
    ensures (forall w | 0 <= w < c.workers :: s.threads[w].Full?)
         || (NobodyFull(s.threads) && |s.mon.tasks| == s.strays && (s.mon.stop <==> AllExited(c, s.threads)))
  {
    ReachableInv(c, s);
    RestMeansDoneInv(c, s);
  }

  lemma RestMeansDoneInv(c: Config, s: State)
    requires Inv(c, s) && c.limit > 0 && Quiet(s)
    ensures (forall w | 0 <= w < c.workers :: s.threads[w].Full?)
         || (NobodyFull(s.threads) && |s.mon.tasks| == s.strays && (s.mon.stop <==> AllExited(c, s.threads)))
  {
    if Asleep in s.threads {
      NoCredits(s.threads);
    } else if Exited in s.threads {
      forall w | 0 <= w < c.workers
        ensures s.threads[w] == Exited
      {
        assert s.threads[w] in s.threads && PcFits(c, w, s.threads[w]);
      }
    } else {
      forall w | 0 <= w < c.workers
        ensures s.threads[w].Full?
      {
        assert s.threads[w] in s.threads && PcFits(c, w, s.threads[w]);
      }
    }
  }

  /** After the join, what is left in the queue is exactly what was pushed too late; if nothing was,
      every task ever pushed has run exactly once. */
  lemma JoinDrains(c: Config, s: State)
    requires c.workers > 0 && Reachable(c, s) && s.stopper == Joined
    ensures |s.mon.tasks| == s.strays
    ensures s.mon.tasks == [] <==> s.strays == 0
    ensures s.strays == 0 ==> s.started == s.pushed && multiset(s.finished) == multiset(s.pushed)
    ensures multiset(s.finished) == multiset(s.started)
  {
    ReachableInv(c, s);
    forall i | 0 <= i < |s.threads|
      ensures forall t :: Holds(s.threads[i], t) == 0
    {
      assert PcFits(c, i, s.threads[i]);
      assert i < c.workers ==> s.threads[i] == Exited;
    }
    forall t
      ensures multiset(s.finished)[t] == multiset(s.started)[t]
    {
      NothingHeld(s.threads, t);
      assert Times(s.started, t) == Times(s.finished, t);
    }
    assert multiset(s.finished) == multiset(s.started);
  }

  /** No outside thread is inside `enqueue` with its task still to push. */
  ghost predicate OutsidersClear(c: Config, s: State)
  {
    forall i | c.workers <= i < |s.threads| :: s.threads[i] == Out || s.threads[i].Owe?
  }

  /** A schedule in which, from the stop on, only tasks running on workers enqueue. */
  ghost predicate Disciplined(c: Config, s: State, es: seq<Event>)
    decreases |es|
  {
    es == [] ||
    var e := es[0];
    && Enabled(c, s, e)
    && (e == SetStop ==> OutsidersClear(c, s))
    && (e.Call? && e.i >= c.workers ==> !s.mon.stop)
    && Disciplined(c, Step(c, s, e), es[1..])
  }

  lemma PushFindsAWorker(c: Config, s: State, i: nat)
    requires Inv(c, s) && Enabled(c, s, Push(i)) && (s.mon.stop ==> OutsidersClear(c, s))
    ensures !AllExited(c, s.threads)
  {
    assert s.threads[0] in s.threads;
    assert PcFits(c, i, s.threads[i]);
  }

  lemma {:induction false} DisciplineLeavesNoStrays(c: Config, s: State, es: seq<Event>, s': State)
    requires Inv(c, s) && Runs(c, s, es, s') && Disciplined(c, s, es)
    requires s.strays == 0 && (s.mon.stop ==> OutsidersClear(c, s))
    ensures s'.strays == 0
    decreases |es|
  {
    if es != [] {
      var e := es[0];
      var s1 := Step(c, s, e);
      StepInv(c, s, e);
      if e.Push? {
        PushFindsAWorker(c, s, e.i);
      }
      if s1.mon.stop {
        forall i | c.workers <= i < |s1.threads|
          ensures s1.threads[i] == Out || s1.threads[i].Owe?
        {
          assert PcFits(c, i, s.threads[i]);
        }
      }
      DisciplineLeavesNoStrays(c, s1, es[1..], s');
    }
  }

  /** So a disciplined pool is empty after the join and has run every task exactly once. */
  lemma DisciplinedJoinDrains(c: Config, s0: State, es: seq<Event>, s: State)
    requires c.workers > 0 && Init(c, s0) && Runs(c, s0, es, s) && Disciplined(c, s0, es) && s.stopper == Joined
    ensures s.mon.tasks == [] && s.started == s.pushed && multiset(s.finished) == multiset(s.pushed)
  {
    InitInv(c, s0);
    RunsKeepInv(c, s0, es, s);
    DisciplineLeavesNoStrays(c, s0, es, s);
    JoinDrains(c, s);
  }

  // ---------------------------------------------------------------------------
  // The exceptions do occur, and how a caller avoids them
  // ---------------------------------------------------------------------------

  lemma {:induction false} RunsOneMore(c: Config, s0: State, es: seq<Event>, s: State, e: Event)
    requires Runs(c, s0, es, s) && Enabled(c, s, e)
    ensures Runs(c, s0, es + [e], Step(c, s, e))
    decreases |es|
  {
    if es == [] {
      assert Runs(c, Step(c, s, e), [], Step(c, s, e));
      assert [e][1..] == [];
    } else {
      RunsOneMore(c, Step(c, s0, es[0]), es[1..], s, e);
      assert (es + [e])[1..] == es[1..] + [e];
    }
  }

  lemma ReachableNext(c: Config, s: State, e: Event)
    requires Reachable(c, s) && Enabled(c, s, e) && c.workers <= |Step(c, s, e).threads|
    ensures Reachable(c, Step(c, s, e))
  {
    var s0: State, es: seq<Event> :| Init(c, s0) && Runs(c, s0, es, s);
    RunsOneMore(c, s0, es, s, e);
  }

  /** A pool with one worker, room for one task, and one outside thread. */
  const SMALL := Config(1, 1)

  function SmallState(tasks: seq<Task>, stop: bool, worker: Pc, outside: Pc, stopper: Stopper,
                      pushed: seq<Task>, started: seq<Task>, strays: nat): State
  {
    State(Monitor(tasks, stop), [worker, outside], stopper, pushed, started, [], strays)
  }

  lemma Onward(c: Config, s: State, e: Event, s': State)
    requires Reachable(c, s) && Enabled(c, s, e) && Step(c, s, e) == s' && c.workers <= |s'.threads|
    ensures Reachable(c, s')
  {
    ReachableNext(c, s, e);
  }

  lemma SmallStart()
    ensures Reachable(SMALL, SmallState([], false, Idle, Out, NotStopped, [], [], 0))
  {
    var s := SmallState([], false, Idle, Out, NotStopped, [], [], 0);
    assert Init(SMALL, s) && Runs(SMALL, s, [], s);
  }

  /** A stopped pool without tasks lets its worker go before the broadcast. */
  lemma SmallStops()
    ensures Reachable(SMALL, SmallState([], true, Exited, Out, Joining, [], [], 0))
  {
    SmallStart();
    Onward(SMALL, SmallState([], false, Idle, Out, NotStopped, [], [], 0), SetStop,
           SmallState([], true, Idle, Out, MustBroadcast, [], [], 0));
    Onward(SMALL, SmallState([], true, Idle, Out, MustBroadcast, [], [], 0), Test(0),
           SmallState([], true, Exited, Out, MustBroadcast, [], [], 0));
    Onward(SMALL, SmallState([], true, Exited, Out, MustBroadcast, [], [], 0), Broadcast,
           SmallState([], true, Exited, Out, Joining, [], [], 0));
  }

  /** A task that an outside thread enqueues after the worker has gone is left over after the join. */
  lemma LateTaskIsLeft() returns (s: State)
    ensures Reachable(SMALL, s) && s.stopper == Joined && s.mon.tasks == [7] && s.strays == 1
  {
    SmallStops();
    s := SmallState([7], true, Exited, Owe(External), Joined, [7], [], 1);
    Onward(SMALL, SmallState([], true, Exited, Out, Joining, [], [], 0), Call(1, 7),
           SmallState([], true, Exited, Enq(7, External), Joining, [], [], 0));
    Onward(SMALL, SmallState([], true, Exited, Enq(7, External), Joining, [], [], 0), Push(1),
           SmallState([7], true, Exited, Owe(External), Joining, [7], [], 1));
    Onward(SMALL, SmallState([7], true, Exited, Owe(External), Joining, [7], [], 1), Join, s);
  }

  /** A pool of any size with one outside thread: the first `k` workers are at `after`, the others at `before`. */
  function Row(c: Config, k: nat, after: Pc, before: Pc, outside: Pc): seq<Pc>
  {
    seq(c.workers + 1, i => if i == c.workers then outside else if i < k then after else before)
  }

  function Zeros(n: nat): seq<Task>
  {
    seq(n, i => 0)
  }

  /** Tasks are all alike here; `queued`, `pushed` and `started` count them. */
  function Plain(threads: seq<Pc>, queued: nat, pushed: nat, started: nat): State
  {
    State(Monitor(Zeros(queued), false), threads, NotStopped, Zeros(pushed), Zeros(started), [], 0)
  }

  lemma OneZeroMore(n: nat)
    ensures Zeros(n) + [0] == Zeros(n + 1) && Zeros(n + 1)[1..] == Zeros(n) && Zeros(n + 1)[0] == 0
  {
  }

  const STUCK := Full(0, Inside(0))

  /** The outside thread hands one more worker a task. */
  lemma OneMoreRuns(c: Config, k: nat)
    requires k < c.workers && c.limit > 0 && Reachable(c, Plain(Row(c, k, Run(0), Idle, Out), 0, k, k))
    ensures Reachable(c, Plain(Row(c, k + 1, Run(0), Idle, Out), 0, k + 1, k + 1))
  {
    var row := (p: Pc) => Row(c, k, Run(0), Idle, p);
    OneZeroMore(k);
    OneZeroMore(0);
    HandOver(c, k);
    var s := Plain(row(Out), 1, k + 1, k);
    assert row(Out)[k] == Idle;
    assert NotifyNotFull(row(Out)) == row(Out);
    assert row(Out)[k := Run(0)] == Row(c, k + 1, Run(0), Idle, Out);
    Onward(c, s, Test(k), Plain(Row(c, k + 1, Run(0), Idle, Out), 0, k + 1, k + 1));
  }

  lemma HandOver(c: Config, k: nat)
    requires k < c.workers && c.limit > 0 && Reachable(c, Plain(Row(c, k, Run(0), Idle, Out), 0, k, k))
    ensures Reachable(c, Plain(Row(c, k, Run(0), Idle, Out), 1, k + 1, k))
  {
    var w := c.workers;
    var enq, owe := Row(c, k, Run(0), Idle, Enq(0, External)), Row(c, k, Run(0), Idle, Owe(External));
    OneZeroMore(k);
    OneZeroMore(0);
    assert Row(c, k, Run(0), Idle, Out)[w := Enq(0, External)] == enq;
    Onward(c, Plain(Row(c, k, Run(0), Idle, Out), 0, k, k), Call(w, 0), Plain(enq, 0, k, k));
    assert enq[w := Owe(External)] == owe && enq[0] != Exited;
    Onward(c, Plain(enq, 0, k, k), Push(w), Plain(owe, 1, k + 1, k));
    assert owe[w := Out] == Row(c, k, Run(0), Idle, Out);
    Onward(c, Plain(owe, 1, k + 1, k), NotifyOne(w, 0), Plain(Row(c, k, Run(0), Idle, Out), 1, k + 1, k));
  }

  lemma {:induction false} AllRun(c: Config, k: nat)
    requires k <= c.workers && c.limit > 0
    ensures Reachable(c, Plain(Row(c, k, Run(0), Idle, Out), 0, k, k))
  {
    if k == 0 {
      var s := Plain(Row(c, 0, Run(0), Idle, Out), 0, 0, 0);
      assert Zeros(0) == [];
      assert Init(c, s) && Runs(c, s, [], s);
    } else {
      AllRun(c, k - 1);
      OneMoreRuns(c, k - 1);
    }
  }

  /** The task of the first worker enqueues one more task. */
  lemma OneMoreQueued(c: Config, n: nat)
    requires c.workers > 0 && n < c.limit
    requires Reachable(c, Plain(Row(c, c.workers, Run(0), Idle, Out), n, c.workers + n, c.workers))
    ensures Reachable(c, Plain(Row(c, c.workers, Run(0), Idle, Out), n + 1, c.workers + n + 1, c.workers))
  {
    var run := Row(c, c.workers, Run(0), Idle, Out);
    FirstPushes(c, run, n, c.workers + n);
    assert run[0 := Owe(Inside(0))][0 := Run(0)] == run;
    Onward(c, Plain(run[0 := Owe(Inside(0))], n + 1, c.workers + n + 1, c.workers), NotifyOne(0, 0),
           Plain(run, n + 1, c.workers + n + 1, c.workers));
  }

  lemma FirstPushes(c: Config, run: seq<Pc>, n: nat, m: nat)
    requires c.workers > 0 && n < c.limit && |run| == c.workers + 1 && run[0] == Run(0)
    requires Reachable(c, Plain(run, n, m, c.workers))
    ensures Reachable(c, Plain(run[0 := Owe(Inside(0))], n + 1, m + 1, c.workers))
  {
    OneZeroMore(n);
    OneZeroMore(m);
    var enq := run[0 := Enq(0, Inside(0))];
    Onward(c, Plain(run, n, m, c.workers), Call(0, 0), Plain(enq, n, m, c.workers));
    assert enq[0 := Owe(Inside(0))] == run[0 := Owe(Inside(0))];
    Onward(c, Plain(enq, n, m, c.workers), Push(0), Plain(run[0 := Owe(Inside(0))], n + 1, m + 1, c.workers));
  }

  lemma {:induction false} QueueFills(c: Config, n: nat)
    requires c.workers > 0 && n <= c.limit && c.limit > 0
    ensures Reachable(c, Plain(Row(c, c.workers, Run(0), Idle, Out), n, c.workers + n, c.workers))
  {
    if n == 0 {
      AllRun(c, c.workers);
    } else {
      QueueFills(c, n - 1);
      OneMoreQueued(c, n - 1);
    }
  }

  /** The task of one more worker enqueues, finds the queue full and waits. */
  lemma OneMoreStuck(c: Config, k: nat)
    requires k < c.workers
    requires Reachable(c, Plain(Row(c, k, STUCK, Run(0), Out), c.limit, c.workers + c.limit, c.workers))
    ensures Reachable(c, Plain(Row(c, k + 1, STUCK, Run(0), Out), c.limit, c.workers + c.limit, c.workers))
  {
    var w, m := c.workers, c.workers + c.limit;
    var now := Row(c, k, STUCK, Run(0), Out);
    var enq := now[k := Enq(0, Inside(0))];
    assert now[k] == Run(0);
    Onward(c, Plain(now, c.limit, m, w), Call(k, 0), Plain(enq, c.limit, m, w));
    assert enq[k := STUCK] == Row(c, k + 1, STUCK, Run(0), Out);
    Onward(c, Plain(enq, c.limit, m, w), Push(k), Plain(Row(c, k + 1, STUCK, Run(0), Out), c.limit, m, w));
  }

  lemma {:induction false} AllStuck(c: Config, k: nat)
    requires c.workers > 0 && c.limit > 0 && k <= c.workers
    ensures Reachable(c, Plain(Row(c, k, STUCK, Run(0), Out), c.limit, c.workers + c.limit, c.workers))
  {
    if k == 0 {
      QueueFills(c, c.limit);
      assert Row(c, c.workers, Run(0), Idle, Out) == Row(c, 0, STUCK, Run(0), Out);
    } else {
      AllStuck(c, k - 1);
      OneMoreStuck(c, k - 1);
    }
  }

  /** A pool of any size can deadlock when tasks enqueue tasks: all workers wait for room that only they
      could make. All that can still happen is a spurious wakeup, a call from outside, or the stop. */
  lemma WorkersCanDeadlock(c: Config) returns (s: State)
    requires c.workers > 0 && c.limit > 0
    ensures s == Plain(Row(c, c.workers, STUCK, Run(0), Out), c.limit, c.workers + c.limit, c.workers)
    ensures Reachable(c, s) && Quiet(s) && |s.mon.tasks| == c.limit
    ensures forall w | 0 <= w < c.workers :: s.threads[w].Full?
    ensures forall e | Enabled(c, s, e) :: e.Spurious? || e.SetStop? || (e.Call? && e.i >= c.workers)
  {
    AllStuck(c, c.workers);
    s := Plain(Row(c, c.workers, STUCK, Run(0), Out), c.limit, c.workers + c.limit, c.workers);
  }

  /** Stopping the pool does not help: the broadcast goes to `condition`, and the workers wait on
      `condition_notfull`. The join then waits for a spurious wakeup. */
  lemma StopDoesNotWakeThem(c: Config) returns (s: State)
    requires c.workers > 0 && c.limit > 0
    ensures Reachable(c, s) && Quiet(s) && s.mon.stop && s.stopper == Joining && !Enabled(c, s, Join)
    ensures forall w | 0 <= w < c.workers :: s.threads[w].Full?
  {
    var s0 := WorkersCanDeadlock(c);
    var s1 := s0.(mon := s0.mon.(stop := true), stopper := MustBroadcast);
    s := s1.(stopper := Joining);
    Onward(c, s0, SetStop, s1);
    assert NotifyWorkers(s1.threads) == s1.threads;
    Onward(c, s1, Broadcast, s);
    assert s.threads[0] != Exited;
  }

  /** A schedule in which tasks do not enqueue tasks. */
  ghost predicate OutsidersOnly(c: Config, es: seq<Event>)
  {
    forall e | e in es :: e.Call? ==> e.i >= c.workers
  }

  ghost predicate WorkersOnlyRun(c: Config, s: State)
  {
    && c.workers <= |s.threads|
    && forall w | 0 <= w < c.workers :: !s.threads[w].Enq? && !s.threads[w].Full? && !s.threads[w].Owe?
  }

  lemma {:induction false} WorkersNeverWait(c: Config, s: State, es: seq<Event>, s': State)
    requires WorkersOnlyRun(c, s) && Runs(c, s, es, s') && OutsidersOnly(c, es)
    ensures WorkersOnlyRun(c, s')
    decreases |es|
  {
    if es != [] {
      assert es[0] in es && forall e | e in es[1..] :: e in es;
      WorkersNeverWait(c, Step(c, s, es[0]), es[1..], s');
    }
  }

  /** So if tasks do not enqueue tasks, a pool never deadlocks: at rest its work is done. */
  lemma OutsidersNeverDeadlock(c: Config, s0: State, es: seq<Event>, s: State)
    requires c.workers > 0 && c.limit > 0 && Init(c, s0) && Runs(c, s0, es, s) && OutsidersOnly(c, es) && Quiet(s)
    ensures c.workers <= |s.threads|
    ensures NobodyFull(s.threads) && |s.mon.tasks| == s.strays && (s.mon.stop <==> AllExited(c, s.threads))
  {
    WorkersNeverWait(c, s0, es, s);
    assert Reachable(c, s) by {
      InitInv(c, s0);
      RunsKeepInv(c, s0, es, s);
    }
    RestMeansDone(c, s);
    assert !s.threads[0].Full?;
  }

  // ---------------------------------------------------------------------------
  // What is pushed is what `enqueue` was called with
  // ---------------------------------------------------------------------------

  /** The tasks of all calls of `enqueue`, in order. */
  function Called(es: seq<Event>): seq<Task>
  {
    if es == [] then [] else (if es[0].Call? then [es[0].x] else []) + Called(es[1..])
  }

  /** Whether a thread is in `enqueue` with task `t` still to push. */
  function Carries(p: Pc, t: Task): nat
  {
    if (p.Enq? || p.Full?) && p.x == t then 1 else 0
  }

  function Carried(ts: seq<Pc>, t: Task): nat
  {
    if ts == [] then 0 else Carries(ts[0], t) + Carried(ts[1..], t)
  }

  lemma {:induction false} UpdateCarried(ts: seq<Pc>, i: nat, p: Pc, t: Task)
    requires i < |ts|
    ensures Carried(ts[i := p], t) + Carries(ts[i], t) == Carried(ts, t) + Carries(p, t)
  {
    if i == 0 {
      assert ts[i := p][1..] == ts[1..];
    } else {
      UpdateCarried(ts[1..], i - 1, p, t);
      assert ts[i := p][1..] == ts[1..][i - 1 := p];
    }
  }

  lemma {:induction false} NotFullCarried(ts: seq<Pc>, t: Task)
    ensures Carried(NotifyNotFull(ts), t) == Carried(ts, t)
  {
    if ts != [] {
      NotFullCarried(ts[1..], t);
      assert NotifyNotFull(ts)[1..] == NotifyNotFull(ts[1..]);
    }
  }

  lemma {:induction false} BroadcastCarried(ts: seq<Pc>, t: Task)
    ensures Carried(NotifyWorkers(ts), t) == Carried(ts, t)
  {
    if ts != [] {
      BroadcastCarried(ts[1..], t);
      assert NotifyWorkers(ts)[1..] == NotifyWorkers(ts[1..]);
    }
  }

  lemma {:induction false} NothingCarried(ts: seq<Pc>, t: Task)
    requires forall i | 0 <= i < |ts| :: !ts[i].Enq? && !ts[i].Full?
    ensures Carried(ts, t) == 0
  {
    if ts != [] {
      NothingCarried(ts[1..], t);
    }
  }

  lemma TestCarries(c: Config, s: State, w: nat, t: Task)
    requires Enabled(c, s, Test(w))
    ensures Carried(Step(c, s, Test(w)).threads, t) == Carried(s.threads, t)
  {
    if Fetch(s.mon).Take? {
      NotFullCarried(s.threads, t);
      UpdateCarried(NotifyNotFull(s.threads), w, Run(Fetch(s.mon).task), t);
    } else {
      UpdateCarried(s.threads, w, Step(c, s, Test(w)).threads[w], t);
    }
  }

  lemma NotifyCarries(c: Config, s: State, i: nat, j: nat, t: Task)
    requires Enabled(c, s, NotifyOne(i, j))
    ensures Carried(Step(c, s, NotifyOne(i, j)).threads, t) == Carried(s.threads, t)
  {
    UpdateCarried(s.threads, i, Return(s.threads[i].home), t);
    if Asleep in s.threads {
      UpdateCarried(s.threads[i := Return(s.threads[i].home)], j, Idle, t);
    }
  }

  /** One step: a call brings its task in, a push takes it over, and nothing else changes. */
  lemma StepCarries(c: Config, s: State, e: Event, t: Task)
    requires Enabled(c, s, e)
    ensures Times(Step(c, s, e).pushed, t) + Carried(Step(c, s, e).threads, t)
            == Times(s.pushed, t) + Carried(s.threads, t) + if e.Call? && e.x == t then 1 else 0
  {
    match e
    case Test(w) => TestCarries(c, s, w, t);
    case Finish(w) => UpdateCarried(s.threads, w, Idle, t);
    case Call(i, x) => UpdateCarried(s.threads, i, Step(c, s, e).threads[i], t);
    case Push(i) => UpdateCarried(s.threads, i, Step(c, s, e).threads[i], t);
    case NotifyOne(i, j) => NotifyCarries(c, s, i, j, t);
    case Spurious(i) => UpdateCarried(s.threads, i, WakeAsleep(WakeFull(s.threads[i])), t);
    case SetStop =>
    case Broadcast => BroadcastCarried(s.threads, t);
    case Join =>
  }

  lemma {:induction false} RunCarries(c: Config, s: State, es: seq<Event>, s': State, t: Task)
    requires Runs(c, s, es, s')
    ensures Times(s'.pushed, t) + Carried(s'.threads, t)
            == Times(s.pushed, t) + Carried(s.threads, t) + Times(Called(es), t)
    decreases |es|
  {
    if es != [] {
      StepCarries(c, s, es[0], t);
      RunCarries(c, Step(c, s, es[0]), es[1..], s', t);
    }
  }

  /** In every run, the tasks pushed and those that threads in `enqueue` still carry are together exactly the
      tasks that `enqueue` was called with. */
  lemma PushedIsCalled(c: Config, s0: State, es: seq<Event>, s: State, t: Task)
    requires Init(c, s0) && Runs(c, s0, es, s)
    ensures multiset(s.pushed)[t] + |Carriers(s.threads, t)| == multiset(Called(es))[t]
  {
    NothingCarried(s0.threads, t);
    RunCarries(c, s0, es, s, t);
    CarriedIs(s.threads, t);
  }

  /** The threads in `enqueue` with task `t` still to push. */
  ghost function Carriers(ts: seq<Pc>, t: Task): set<nat>
  {
    set i: nat | i < |ts| && (ts[i].Enq? || ts[i].Full?) && ts[i].x == t
  }

  lemma CarriersSnoc(ts: seq<Pc>, t: Task)
    requires ts != []
    ensures var n := |ts| - 1;
            Carriers(ts, t) == if Carries(ts[n], t) == 1 then Carriers(ts[..n], t) + {n} else Carriers(ts[..n], t)
  {
    var n := |ts| - 1;
    assert forall i | 0 <= i < n :: ts[..n][i] == ts[i];
  }

  lemma {:induction false} CarriedIs(ts: seq<Pc>, t: Task)
    ensures Carried(ts, t) == |Carriers(ts, t)|
  {
    if ts != [] {
      CarriedIs(ts[..|ts| - 1], t);
      CarriedSnoc(ts, t);
      CarriersSnoc(ts, t);
      assert |ts| - 1 !in Carriers(ts[..|ts| - 1], t);
    }
  }

  lemma {:induction false} CarriedSnoc(ts: seq<Pc>, t: Task)
    requires ts != []
    ensures Carried(ts, t) == Carried(ts[..|ts| - 1], t) + Carries(ts[|ts| - 1], t)
  {
    if |ts| > 1 {
      CarriedSnoc(ts[1..], t);
      assert ts[1..][..|ts| - 2] == ts[..|ts| - 1][1..];
    }
  }

  /** The task of the last call of a thread. */
  function LastCall(es: seq<Event>, i: nat): (r: seq<Task>)
    ensures |r| <= 1
  {
    if es == [] then []
    else if es[|es| - 1].Call? && es[|es| - 1].i == i then [es[|es| - 1].x]
    else LastCall(es[..|es| - 1], i)
  }

  /** A thread in `enqueue` carries the task of its own last call. */
  ghost predicate CarryOwn(ts: seq<Pc>, past: seq<Event>)
  {
    forall i | 0 <= i < |ts| && (ts[i].Enq? || ts[i].Full?) :: LastCall(past, i) == [ts[i].x]
  }

  lemma StepCarriesOwn(c: Config, s: State, past: seq<Event>, e: Event)
    requires Enabled(c, s, e) && CarryOwn(s.threads, past)
    ensures CarryOwn(Step(c, s, e).threads, past + [e])
  {
    assert (past + [e])[..|past|] == past;
    var ts := Step(c, s, e).threads;
    forall i | 0 <= i < |ts| && (ts[i].Enq? || ts[i].Full?)
      ensures LastCall(past + [e], i) == [ts[i].x]
    {
      assert i < |s.threads|;
    }
  }

  lemma {:induction false} RunCarriesOwn(c: Config, s: State, past: seq<Event>, es: seq<Event>, s': State)
    requires Runs(c, s, es, s') && CarryOwn(s.threads, past)
    ensures CarryOwn(s'.threads, past + es)
    decreases |es|
  {
    if es == [] {
      assert past + es == past;
    } else {
      StepCarriesOwn(c, s, past, es[0]);
      RunCarriesOwn(c, Step(c, s, es[0]), past + [es[0]], es[1..], s');
      assert past + [es[0]] + es[1..] == past + es;
    }
  }

  /** In every run, a thread that gets to push, however long it waited for room, pushes the task of its own last
      call, behind all others. */
  lemma PushesItsOwn(c: Config, s0: State, es: seq<Event>, s: State, i: nat)
    requires Init(c, s0) && Runs(c, s0, es, s) && Enabled(c, s, Push(i))
    ensures |LastCall(es, i)| == 1
    ensures s.mon.stop || |s.mon.tasks| < c.limit ==>
              && Step(c, s, Push(i)).pushed == s.pushed + LastCall(es, i)
              && Step(c, s, Push(i)).mon.tasks == s.mon.tasks + LastCall(es, i)
    ensures !(s.mon.stop || |s.mon.tasks| < c.limit) ==>
              Step(c, s, Push(i)).pushed == s.pushed && Step(c, s, Push(i)).mon == s.mon
  {
    RunCarriesOwn(c, s0, [], es, s);
    assert [] + es == es;
  }

  // ---------------------------------------------------------------------------
  // How long a run can be
  // ---------------------------------------------------------------------------

  /** What a thread still has to do, if a task pushed costs `each`. */
  function Weight(p: Pc, each: nat): nat
  {
    match p
    case Out | Exited | Asleep => 0
    case Idle => 1
    case Run(_) => 2
    case Owe(_) => 4
    case Full(_, _) => each + 5
    case Enq(_, _) => each + 6
  }

  function Weights(ts: seq<Pc>, each: nat): nat
  {
    if ts == [] then 0 else Weight(ts[0], each) + Weights(ts[1..], each)
  }

  lemma {:induction false} WeightsUpdate(ts: seq<Pc>, each: nat, i: nat, p: Pc)
    requires i < |ts|
    ensures Weights(ts[i := p], each) + Weight(ts[i], each) == Weights(ts, each) + Weight(p, each)
  {
    if i == 0 {
      assert ts[i := p][1..] == ts[1..];
    } else {
      WeightsUpdate(ts[1..], each, i - 1, p);
      assert ts[i := p][1..] == ts[1..][i - 1 := p];
    }
  }

  lemma {:induction false} NotFullCosts(ts: seq<Pc>, each: nat)
    ensures Weights(NotifyNotFull(ts), each) <= Weights(ts, each) + |ts|
  {
    if ts != [] {
      NotFullCosts(ts[1..], each);
      assert NotifyNotFull(ts)[1..] == NotifyNotFull(ts[1..]);
    }
  }

  lemma {:induction false} BroadcastCosts(ts: seq<Pc>, each: nat)
    ensures Weights(NotifyWorkers(ts), each) <= Weights(ts, each) + |ts|
  {
    if ts != [] {
      BroadcastCosts(ts[1..], each);
      assert NotifyWorkers(ts)[1..] == NotifyWorkers(ts[1..]);
    }
  }

  /** What is left to do without new calls: a task that is taken may wake every producer, the stop every worker. */
  function WorkLeft(s: State): nat
  {
    var each := |s.threads| + 2;
    Weights(s.threads, each) + each * |s.mon.tasks|
    + match s.stopper
      case NotStopped => |s.threads| + 3
      case MustBroadcast => |s.threads| + 2
      case Joining => 1
      case Joined => 0
  }

  ghost predicate NoCalls(es: seq<Event>)
  {
    forall e | e in es :: !e.Call?
  }

  function Wakes(es: seq<Event>): nat
  {
    if es == [] then 0 else (if es[0].Spurious? then 1 else 0) + Wakes(es[1..])
  }

  lemma OneTaskMore(each: nat, n: nat)
    ensures each * (n + 1) == each * n + each
  {
  }

  lemma TestLowers(c: Config, s: State, w: nat)
    requires Enabled(c, s, Test(w))
    ensures WorkLeft(Step(c, s, Test(w))) < WorkLeft(s)
  {
    var each := |s.threads| + 2;
    if Fetch(s.mon).Take? {
      NotFullCosts(s.threads, each);
      WeightsUpdate(NotifyNotFull(s.threads), each, w, Run(Fetch(s.mon).task));
      OneTaskMore(each, |s.mon.tasks| - 1);
    } else {
      WeightsUpdate(s.threads, each, w, Step(c, s, Test(w)).threads[w]);
    }
  }

  lemma PushLowers(c: Config, s: State, i: nat)
    requires Enabled(c, s, Push(i))
    ensures WorkLeft(Step(c, s, Push(i))) < WorkLeft(s)
  {
    var each := |s.threads| + 2;
    WeightsUpdate(s.threads, each, i, Step(c, s, Push(i)).threads[i]);
    OneTaskMore(each, |s.mon.tasks|);
  }

  lemma NotifyLowers(c: Config, s: State, i: nat, j: nat)
    requires Enabled(c, s, NotifyOne(i, j))
    ensures WorkLeft(Step(c, s, NotifyOne(i, j))) < WorkLeft(s)
  {
    var each := |s.threads| + 2;
    var back := s.threads[i := Return(s.threads[i].home)];
    WeightsUpdate(s.threads, each, i, Return(s.threads[i].home));
    if Asleep in s.threads {
      WeightsUpdate(back, each, j, Idle);
    }
  }

  /** Every step but a call and a spurious wakeup lowers it; a wakeup raises it by one. */
  lemma StepLowers(c: Config, s: State, e: Event)
    requires Enabled(c, s, e) && !e.Call?
    ensures if e.Spurious? then WorkLeft(Step(c, s, e)) == WorkLeft(s) + 1 else WorkLeft(Step(c, s, e)) < WorkLeft(s)
  {
    var each := |s.threads| + 2;
    match e
    case Test(w) => TestLowers(c, s, w);
    case Finish(w) => WeightsUpdate(s.threads, each, w, Idle);
    case Push(i) => PushLowers(c, s, i);
    case NotifyOne(i, j) => NotifyLowers(c, s, i, j);
    case Spurious(i) => WeightsUpdate(s.threads, each, i, WakeAsleep(WakeFull(s.threads[i])));
    case SetStop =>
    case Broadcast => BroadcastCosts(s.threads, each);
    case Join =>
  }

  /** Without new calls, a run is bounded by what is left to do and its spurious wakeups. */
  lemma {:induction false} RunsAreBounded(c: Config, s: State, es: seq<Event>, s': State)
    requires Runs(c, s, es, s') && NoCalls(es)
    ensures |es| + WorkLeft(s') <= WorkLeft(s) + 2 * Wakes(es)
    decreases |es|
  {
    if es != [] {
      assert es[0] in es && forall e | e in es[1..] :: e in es;
      StepLowers(c, s, es[0]);
      RunsAreBounded(c, Step(c, s, es[0]), es[1..], s');
    }
  }

  /** A step that a thread takes of its own accord. */
  ghost predicate IsOwnStep(c: Config, s: State, e: Event)
  {
    Enabled(c, s, e) && !e.Call? && !e.Spurious?
  }

  lemma AwakeCanStep(c: Config, s: State, i: nat)
    requires InShape(c, s) && i < |s.threads|
    requires s.threads[i] == Idle || s.threads[i].Run? || s.threads[i].Enq? || s.threads[i].Owe?
    ensures exists e :: IsOwnStep(c, s, e)
  {
    assert PcFits(c, i, s.threads[i]);
    if s.threads[i] == Idle {
      assert IsOwnStep(c, s, Test(i));
    } else if s.threads[i].Run? {
      assert IsOwnStep(c, s, Finish(i));
    } else if s.threads[i].Enq? {
      assert IsOwnStep(c, s, Push(i));
    } else {
      var j: nat := 0;
      if Asleep in s.threads {
        j :| 0 <= j < |s.threads| && s.threads[j] == Asleep;
      }
      assert IsOwnStep(c, s, NotifyOne(i, j));
    }
  }

  lemma {:induction false} StaysStopped(c: Config, s: State, es: seq<Event>, s': State)
    requires Runs(c, s, es, s') && s.mon.stop
    ensures s'.mon.stop
    decreases |es|
  {
    if es != [] {
      StaysStopped(c, Step(c, s, es[0]), es[1..], s');
    }
  }

  lemma StoppedInv(c: Config, s: State, es: seq<Event>, s': State)
    requires c.workers > 0 && Reachable(c, s) && s.mon.stop && Runs(c, s, es, s')
    ensures Inv(c, s') && s'.mon.stop
  {
    ReachableInv(c, s);
    RunsKeepInv(c, s, es, s');
    StaysStopped(c, s, es, s');
  }

  /** The join of a stopped pool returns: without new calls only boundedly many steps are left, and until the
      join there is one to take, unless all workers wait in their own `enqueue`. */
  lemma JoinReturns(c: Config, s: State, es: seq<Event>, s': State)
    requires c.workers > 0 && c.limit > 0 && Reachable(c, s) && s.mon.stop && Runs(c, s, es, s') && NoCalls(es)
    ensures |es| <= WorkLeft(s) + 2 * Wakes(es)
    ensures s'.stopper == Joined || (exists e :: IsOwnStep(c, s', e)) || AllFull(c, s')
  {
    RunsAreBounded(c, s, es, s');
    StoppedInv(c, s, es, s');
    if s'.stopper != Joined {
      RestOrStep(c, s');
    }
  }

  /** Every worker waits for room in an `enqueue` of its own task. */
  ghost predicate AllFull(c: Config, s: State)
  {
    c.workers <= |s.threads| && forall w | 0 <= w < c.workers :: s.threads[w].Full?
  }

  lemma RestOrStep(c: Config, s: State)
    requires Inv(c, s) && c.limit > 0 && s.mon.stop && s.stopper != Joined
    ensures (exists e :: IsOwnStep(c, s, e)) || AllFull(c, s)
  {
    if s.stopper == MustBroadcast {
      assert IsOwnStep(c, s, Broadcast);
    } else if i :| 0 <= i < |s.threads|
                   && (s.threads[i] == Idle || s.threads[i].Run? || s.threads[i].Enq? || s.threads[i].Owe?) {
      AwakeCanStep(c, s, i);
    } else {
      assert forall p | p in s.threads :: p == Asleep || p == Exited || p == Out || p.Full?;
      RestMeansDoneInv(c, s);
      if AllExited(c, s.threads) {
        assert IsOwnStep(c, s, Join);
      }
    }
  }
}
