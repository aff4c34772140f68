/** In a reliable thread pool no accepted task is out of reach. */
module ThreadPoolService {
  import opened Runs
  import opened TaskQueue
  import opened ThreadPool
  import opened ThreadPoolSafety
  import opened ThreadPoolWakeups

  /** The steps of the threads themselves: no wake-up for no reason, no end of a thread, no shutdown. */
  function OwnStep(s: State, m: Move): Option<State> {
    if m.WorkerMoves? || m.ProducerMoves? || m.ManagerMoves? then Step(s, m) else None
  }

  /** A reachable state of a reliable pool before a shutdown. */
  ghost predicate Good(s: State) {
    && Inv(s) && Steady(s) && !s.pool.shutdown
    && Reliable(s.pool.minThr, s.pool.maxThr, |s.pool.ring.slots|, |s.producers|)
  }

  lemma GoodStays(s: State, m: Move)
    requires Good(s) && OwnStep(s, m).Some?
    ensures Good(Step(s, m).value) && Extends(s, Step(s, m).value)
  {
    StepKeepsInv(s, m);
    StepStaysSteady(s, m);
    StepExtends(s, m);
    NoShutdown(s, m);
  }

  lemma NoShutdown(s: State, m: Move)
    requires OwnStep(s, m).Some? && !s.pool.shutdown
    ensures !Step(s, m).value.pool.shutdown
  {
  }

  /** Such a pool has the workers it was created with, and they are covered. */
  lemma SomebodyComes(s: State)
    requires Good(s) && s.pool.ring.size > 0
    ensures s.pool.live == s.pool.minThr > 0 && Cover(s) > 0
    ensures Num(s.workers, Awake) == 0 ==> Num(s.workers, Sleeping) > 0
  {
    NobodyStopped(s.workers);
  }

  /** What is queued has been accepted and not taken. */
  lemma QueuedTasks(s: State)
    requires Inv(s)
    ensures |s.pool.accepted| == |s.pool.taken| + s.pool.ring.size
  {
    RecordedConserves(s);
  }

  // ---- A worker that holds the lock takes a task.

  /** How many moves a worker inside lines 171-201 is from having taken a task. */
  function ToTake(pc: WorkerPC): nat {
    match pc
    case ExitTest176 => 5
    case LiveTest180 => 4
    case Test171 => 3
    case Check191 => 2
    case Take198 => 1
    case _ => 0
  }

  lemma TakerStep(g: Pool, u: Worker, me: nat)
    requires ToTake(u.pc) > 0 && g.ring.size > 0 && g.ring.Valid() && !g.shutdown && g.live <= g.minThr
    ensures WorkerStep(g, u, me).Some?
    ensures var (n, v) := WorkerStep(g, u, me).value;
            if u.pc == Take198 then |n.taken| == |g.taken| + 1
            else 0 < ToTake(v.pc) < ToTake(u.pc) && n.ring == g.ring && n.taken == g.taken
  {
  }

  lemma {:induction false} TakerTakes(start: State, s: State, w: nat) returns (n: State)
    requires Leads(OwnStep, start, s) && Good(s) && s.pool.ring.size > 0
    requires w < |s.workers| && ToTake(s.workers[w].pc) > 0
    ensures Leads(OwnStep, start, n) && Good(n) && Extends(s, n) && |n.pool.taken| == |s.pool.taken| + 1
    decreases ToTake(s.workers[w].pc)
  {
    SomebodyComes(s);
    TakerStep(s.pool, s.workers[w], w);
    n := Then(start, s, WorkerMoves(w));
    if s.workers[w].pc != Take198 {
      var t := n;
      n := TakerTakes(start, t, w);
    }
  }

  lemma Then(start: State, s: State, m: Move) returns (n: State)
    requires Leads(OwnStep, start, s) && Good(s) && OwnStep(s, m).Some?
    ensures n == Step(s, m).value && Leads(OwnStep, start, n) && Good(n) && Extends(s, n)
  {
    n := Step(s, m).value;
    LeadsByMove(OwnStep, start, s, m);
    GoodStays(s, m);
  }

  // ---- Whoever else holds the lock gives it back.

  /** How many moves a producer inside its call is from giving back the lock. */
  function ToUnlock(pc: ProducerPC): nat {
    match pc
    case Test133 => 4
    case Check137 => 3
    case Put142 => 2
    case Signal154 => 1
    case _ => 0
  }

  lemma ProducerNearer(s: State, p: nat, pick: nat)
    requires Good(s) && p < |s.producers| && s.pool.lock == Some(TheProducer(p)) && Signal(s.workers, pick).Some?
    ensures ProducerMove(s, p, Task(0, 0), pick).Some?
    ensures var n := ProducerMove(s, p, Task(0, 0), pick).value;
            && n.pool.taken == s.pool.taken && |n.producers| == |s.producers| && n.pool.ring.size >= s.pool.ring.size
            && (n.pool.lock == None
                || (n.pool.lock == s.pool.lock && ToUnlock(n.producers[p].pc) < ToUnlock(s.producers[p].pc)))
  {
    ProducerGoesOn(s, p, pick);
  }

  lemma {:induction false} ProducerUnlocks(start: State, s: State, p: nat) returns (n: State)
    requires Leads(OwnStep, start, s) && Good(s) && s.pool.ring.size > 0
    requires p < |s.producers| && s.pool.lock == Some(TheProducer(p))
    ensures Leads(OwnStep, start, n) && Good(n) && Extends(s, n) && n.pool.taken == s.pool.taken
    ensures n.pool.lock == None && n.pool.ring.size > 0
    decreases ToUnlock(s.producers[p].pc)
  {
    var pick := ASleeper(s.workers);
    ProducerNearer(s, p, pick);
    n := Then(start, s, ProducerMoves(p, Task(0, 0), pick));
    if n.pool.lock != None {
      var t := n;
      n := ProducerUnlocks(start, t, p);
    }
  }

  /** A reliable pool does not grow, so the manager gives back the lock in one move. */
  lemma ManagerUnlocks(start: State, s: State) returns (n: State)
    requires Leads(OwnStep, start, s) && Good(s) && s.pool.ring.size > 0 && s.pool.lock == Some(TheManager)
    ensures Leads(OwnStep, start, n) && Good(n) && Extends(s, n) && n.pool.taken == s.pool.taken
    ensures n.pool.lock == None && n.pool.ring.size > 0
  {
    SomebodyComes(s);
    n := Then(start, s, ManagerMoves(0));
  }

  lemma UnlockStep(g: Pool, u: Worker, me: nat)
    requires u.pc == Broadcast204
    ensures WorkerStep(g, u, me).Some?
    ensures var n := WorkerStep(g, u, me).value.0; n.ring == g.ring && n.taken == g.taken && n.lock == None
  {
  }

  lemma WorkerUnlocks(start: State, s: State, w: nat) returns (n: State)
    requires Leads(OwnStep, start, s) && Good(s) && s.pool.ring.size > 0
    requires w < |s.workers| && s.workers[w].pc == Broadcast204
    ensures Leads(OwnStep, start, n) && Good(n) && Extends(s, n) && n.pool.taken == s.pool.taken
    ensures n.pool.lock == None && n.pool.ring.size > 0
  {
    UnlockStep(s.pool, s.workers[w], w);
    n := Then(start, s, WorkerMoves(w));
  }

  // ---- With the lock free somebody comes and takes a task.

  /** How many moves an awake worker outside the lock is from taking it. */
  function ToLock(pc: WorkerPC): nat {
    match pc
    case CountUp210 => 4
    case Run213 => 3
    case CountDown218 => 2
    case Lock169 => 1
    case Woken174 => 1
    case _ => 0
  }

  lemma ComerStep(g: Pool, u: Worker, me: nat)
    requires ToLock(u.pc) > 0 && g.lock == None
    ensures WorkerStep(g, u, me).Some?
    ensures var (n, v) := WorkerStep(g, u, me).value;
            && n.ring == g.ring && n.taken == g.taken
            && (if ToLock(u.pc) == 1 then ToTake(v.pc) > 0 else n.lock == None && 0 < ToLock(v.pc) < ToLock(u.pc))
  {
  }

  lemma {:induction false} ComerTakes(start: State, s: State, w: nat) returns (n: State)
    requires Leads(OwnStep, start, s) && Good(s) && s.pool.ring.size > 0 && s.pool.lock == None
    requires w < |s.workers| && ToLock(s.workers[w].pc) > 0
    ensures Leads(OwnStep, start, n) && Good(n) && Extends(s, n) && |n.pool.taken| == |s.pool.taken| + 1
    decreases ToLock(s.workers[w].pc)
  {
    ComerStep(s.pool, s.workers[w], w);
    n := Then(start, s, WorkerMoves(w));
    var t := n;
    if ToLock(s.workers[w].pc) == 1 {
      n := TakerTakes(start, t, w);
    } else {
      n := ComerTakes(start, t, w);
    }
  }

  lemma {:induction false} AnAwakeWorker(ws: seq<Worker>) returns (w: nat)
    requires Num(ws, Awake) > 0
    ensures w < |ws| && Is(ws[w], Awake)
  {
    w := 0;
    if !Is(ws[0], Awake) {
      var v := AnAwakeWorker(ws[1..]);
      w := v + 1;
    }
  }

  /** With nobody awake the manager's signals are on their way, and one wakes a sleeper. */
  lemma ManagerWakes(start: State, s: State) returns (n: State)
    requires Leads(OwnStep, start, s) && Good(s) && s.pool.ring.size > 0 && s.pool.lock == None
    requires Num(s.workers, Awake) == 0
    ensures Leads(OwnStep, start, n) && Good(n) && Extends(s, n) && n.pool == s.pool && Num(n.workers, Awake) > 0
  {
    SomebodyComes(s);
    var pick := ASleeper(s.workers);
    SignalCounts(s.workers, pick);
    n := Then(start, s, ManagerMoves(pick));
  }

  lemma FreeLockTakes(start: State, s: State) returns (n: State)
    requires Leads(OwnStep, start, s) && Good(s) && s.pool.ring.size > 0 && s.pool.lock == None
    ensures Leads(OwnStep, start, n) && Good(n) && Extends(s, n) && |n.pool.taken| == |s.pool.taken| + 1
  {
    var t := s;
    if Num(s.workers, Awake) == 0 {
      t := ManagerWakes(start, s);
    }
    var w := AnAwakeWorker(t.workers);
    assert ToLock(t.workers[w].pc) > 0;
    n := ComerTakes(start, t, w);
  }

  /** From every good state with a task queued the threads can go on to take one. */
  lemma NextTake(start: State, s: State) returns (n: State)
    requires Leads(OwnStep, start, s) && Good(s) && s.pool.ring.size > 0
    ensures Leads(OwnStep, start, n) && Good(n) && Extends(s, n) && |n.pool.taken| == |s.pool.taken| + 1
  {
    var t := s;
    match s.pool.lock {
      case None =>
      case Some(TheManager) => t := ManagerUnlocks(start, s);
      case Some(TheProducer(p)) => t := ProducerUnlocks(start, s, p);
      case Some(TheWorker(w)) =>
        if s.workers[w].pc != Broadcast204 {
          n := TakerTakes(start, s, w);
          return;
        }
        t := WorkerUnlocks(start, s, w);
    }
    n := FreeLockTakes(start, t);
  }

  lemma {:induction false} AllTaken(start: State, s: State, count: nat) returns (n: State)
    requires Leads(OwnStep, start, s) && Good(s) && |s.pool.taken| + count <= |s.pool.accepted|
    ensures Leads(OwnStep, start, n) && Good(n) && |n.pool.taken| == |s.pool.taken| + count
    decreases count
  {
    n := s;
    if count > 0 {
      QueuedTasks(s);
      var t := NextTake(start, s);
      n := AllTaken(start, t, count - 1);
    }
  }

  // ---- Whoever has taken a task can run it.

  function ToRun(pc: WorkerPC): nat {
    match pc
    case Broadcast204 => 3
    case CountUp210 => 2
    case Run213 => 1
    case _ => 0
  }

  lemma RunnerStep(g: Pool, u: Worker, me: nat)
    requires ToRun(u.pc) > 0
    ensures WorkerStep(g, u, me).Some?
    ensures var (n, v) := WorkerStep(g, u, me).value;
            && v.ticket == u.ticket && n.ran == (if u.pc == Run213 then g.ran + [u.ticket] else g.ran)
            && (u.pc != Run213 ==> 0 < ToRun(v.pc) < ToRun(u.pc))
  {
  }

  lemma {:induction false} RunnerRuns(start: State, s: State, w: nat) returns (n: State)
    requires Leads(OwnStep, start, s) && Good(s) && w < |s.workers| && ToRun(s.workers[w].pc) > 0
    ensures Leads(OwnStep, start, n) && Good(n) && Extends(s, n) && s.workers[w].ticket in n.pool.ran
    decreases ToRun(s.workers[w].pc)
  {
    RunnerStep(s.pool, s.workers[w], w);
    n := Then(start, s, WorkerMoves(w));
    if s.workers[w].pc != Run213 {
      var t := n;
      n := RunnerRuns(start, t, w);
    }
  }

  /** The first `count` tasks have run. */
  predicate HaveRun(s: State, count: nat) { forall k: nat :: k < count ==> k in s.pool.ran }

  /** A task that has been taken is run, or its worker can run it. */
  lemma TaskRuns(start: State, s: State, k: nat) returns (n: State)
    requires Leads(OwnStep, start, s) && Good(s) && k < |s.pool.taken|
    ensures Leads(OwnStep, start, n) && Good(n) && s.pool.ran <= n.pool.ran && |s.pool.taken| <= |n.pool.taken|
    ensures k in n.pool.ran
  {
    n := s;
    if k !in s.pool.ran {
      TakenIsCarried(s, k);
      n := RunnerRuns(start, s, s.pool.taken[k]);
    }
  }

  lemma TakenIsCarried(s: State, k: nat)
    requires Inv(s) && k < |s.pool.taken| && k !in s.pool.ran
    ensures var w := s.pool.taken[k]; w < |s.workers| && ToRun(s.workers[w].pc) > 0 && s.workers[w].ticket == k
  {
    RecordedConserves(s);
    assert Carries(s.workers, s.pool.taken[k], k);
  }

  lemma OneMoreHasRun(s: State, n: State, k: nat)
    requires HaveRun(s, k) && s.pool.ran <= n.pool.ran && k in n.pool.ran
    ensures HaveRun(n, k + 1)
  {
    assert forall j :: j in s.pool.ran ==> j in n.pool.ran;
  }

  lemma {:induction false} AllRun(start: State, s: State, k: nat, count: nat) returns (n: State)
    requires Leads(OwnStep, start, s) && Good(s) && k <= count <= |s.pool.taken| && HaveRun(s, k)
    ensures Leads(OwnStep, start, n) && HaveRun(n, count)
    decreases count - k
  {
    n := s;
    if k < count {
      var t := TaskRuns(start, s, k);
      OneMoreHasRun(s, t, k);
      n := AllRun(start, t, k + 1, count);
    }
  }

  /** In a reliable pool every reachable state before a shutdown has a continuation, by
      steps of the threads themselves, in which every task accepted so far is run. */
  lemma AcceptedTasksCanBeRun(minThr: nat, maxThr: nat, queueMaxSize: nat, producers: nat, moves: seq<Move>)
    requires minThr <= maxThr && queueMaxSize > 0 && Reliable(minThr, maxThr, queueMaxSize, producers)
    ensures var s := After(minThr, maxThr, queueMaxSize, producers, moves);
            !s.pool.shutdown ==>
              exists more: seq<Move> :: HaveRun(Exec(OwnStep, s, more), |s.pool.accepted|)
  {
    SafePoolsStayCovered(minThr, maxThr, queueMaxSize, producers, moves);
    var s := After(minThr, maxThr, queueMaxSize, producers, moves);
    if !s.pool.shutdown {
      QueuedTasks(s);
      LeadsNowhere(OwnStep, s);
      var t := AllTaken(s, s, s.pool.ring.size);
      var n := AllRun(s, t, 0, |s.pool.accepted|);
      var more: seq<Move> :| Exec(OwnStep, s, more) == n;
    }
  }
}
