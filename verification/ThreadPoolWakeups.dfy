/** Which thread pools never lose a wake-up, by the arguments of threadpool_create. */
module ThreadPoolWakeups {
  import opened Runs
  import opened TaskQueue
  import opened ThreadPool
  import opened ThreadPoolSafety
  import opened ThreadPoolShrink

  /** A pool of fixed size that is not empty, or one that nobody uses. */
  predicate Reliable(minThr: nat, maxThr: nat, queueMaxSize: nat, producers: nat) {
    producers == 0 || (minThr > 0 && (minThr == maxThr || queueMaxSize < MIN_WAIT_TASK_NUM))
  }

  /** The pool cannot grow, or never has a worker to spare while another sleeps. */
  predicate Safe(minThr: nat, maxThr: nat, queueMaxSize: nat, producers: nat) {
    minThr == maxThr || queueMaxSize < MIN_WAIT_TASK_NUM || producers == 0 || maxThr <= 1
  }

  /** The queue cannot hold enough tasks for the manager to grow the pool. */
  predicate Idles(s: State) { |s.pool.ring.slots| < MIN_WAIT_TASK_NUM || s.producers == [] }

  /** Such a pool keeps its first size. */
  predicate Level(s: State) {
    && s.pool.live == s.pool.minThr
    && s.manager.queueSize < MIN_WAIT_TASK_NUM && s.manager.pc != Lock247 && s.manager.pc != Grow250
    && (s.producers == [] ==> s.pool.ring.size == 0)
  }

  /** The pool is the same one. */
  predicate SamePool(s: State, n: State) {
    && n.pool.minThr == s.pool.minThr && n.pool.maxThr == s.pool.maxThr
    && |n.pool.ring.slots| == |s.pool.ring.slots| && |n.producers| == |s.producers|
  }

  ghost predicate Steady(s: State) {
    && Safe(s.pool.minThr, s.pool.maxThr, |s.pool.ring.slots|, |s.producers|)
    && (Idles(s) ==> Level(s))
    && (!s.pool.shutdown ==> Covered(s))
  }

  lemma WorkerStaysLevel(s: State, w: nat)
    requires Idles(s) && Level(s) && WorkerMove(s, w).Some?
    ensures Level(WorkerMove(s, w).value)
  {
  }

  lemma ProducerStaysLevel(s: State, p: nat, task: Task, pick: nat)
    requires Idles(s) && Level(s) && ProducerMove(s, p, task, pick).Some?
    ensures Level(ProducerMove(s, p, task, pick).value)
  {
  }

  lemma ManagerStaysLevel(s: State, pick: nat)
    requires Queued(s) && Idles(s) && Level(s) && ManagerMove(s, pick).Some?
    ensures Level(ManagerMove(s, pick).value)
  {
  }

  lemma StepStaysLevel(s: State, m: Move)
    requires Queued(s) && Idles(s) && Level(s) && Step(s, m).Some?
    ensures Level(Step(s, m).value)
  {
    match m
    case WorkerMoves(w) => WorkerStaysLevel(s, w);
    case ProducerMoves(p, task, pick) => ProducerStaysLevel(s, p, task, pick);
    case ManagerMoves(pick) => ManagerStaysLevel(s, pick);
    case _ =>
  }

  lemma StepKeepsProducers(s: State, m: Move)
    requires Step(s, m).Some?
    ensures |Step(s, m).value.producers| == |s.producers|
  {
  }

  /** A worker that is not asleep stays besides the sleepers. */
  lemma {:induction false} OneMoreStays(ws: seq<Worker>, w: nat)
    requires w < |ws| && Is(ws[w], Staying) && !Is(ws[w], Sleeping)
    ensures Num(ws, Staying) >= Num(ws, Sleeping) + 1
  {
    if w > 0 {
      OneMoreStays(ws[1..], w - 1);
    } else {
      SleepersStay(ws[1..]);
    }
  }

  lemma {:induction false} SleepersStay(ws: seq<Worker>)
    ensures Num(ws, Staying) >= Num(ws, Sleeping)
  {
    if ws != [] {
      SleepersStay(ws[1..]);
    }
  }

  /** In a safe pool nobody sleeps while a worker leaves. */
  lemma NobodySleepsBehind(s: State, w: nat)
    requires Sized(s) && Steady(s) && Leaves(s, w)
    ensures Num(s.workers, Sleeping) == 0
  {
    OneMoreStays(s.workers, w);
  }

  lemma StepStaysCovered(s: State, m: Move)
    requires Inv(s) && Steady(s) && !s.pool.shutdown && Step(s, m).Some?
    ensures Covered(Step(s, m).value)
  {
    UncoveredExactly(s, m);
    if m.WorkerMoves? && Leaves(s, m.w) { NobodySleepsBehind(s, m.w); }
  }

  lemma StepStaysSteady(s: State, m: Move)
    requires Inv(s) && Steady(s) && Step(s, m).Some?
    ensures Steady(Step(s, m).value) && SamePool(s, Step(s, m).value)
  {
    StepKeepsProducers(s, m);
    StepExtends(s, m);
    if Idles(s) { StepStaysLevel(s, m); }
    if s.pool.shutdown { ShutdownStays(s, m); } else { StepStaysCovered(s, m); }
  }

  lemma ShutdownStays(s: State, m: Move)
    requires Step(s, m).Some? && s.pool.shutdown
    ensures Step(s, m).value.pool.shutdown
  {
  }

  lemma StepExtends(s: State, m: Move)
    requires Step(s, m).Some?
    ensures Extends(s, Step(s, m).value)
  {
    match m
    case WorkerMoves(w) => WorkerExtends(s, w);
    case ProducerMoves(p, task, pick) => ProducerExtends(s, p, task, pick);
    case ManagerMoves(pick) => ManagerExtends(s, pick);
    case _ =>
  }

  /** In a safe pool queued tasks are covered by awake workers and signals on their way
      whenever some worker sleeps, in every run up to a shutdown. */
  lemma SafePoolsStayCovered(minThr: nat, maxThr: nat, queueMaxSize: nat, producers: nat, moves: seq<Move>)
    requires minThr <= maxThr && queueMaxSize > 0 && Safe(minThr, maxThr, queueMaxSize, producers)
    ensures var s := After(minThr, maxThr, queueMaxSize, producers, moves);
            && (!s.pool.shutdown ==> Covered(s))
            && (minThr == maxThr || queueMaxSize < MIN_WAIT_TASK_NUM || producers == 0 ==> s.pool.live == minThr)
            && (producers == 0 ==> s.pool.ring.size == 0)
            && Inv(s) && Steady(s) && SamePool(Create(minThr, maxThr, queueMaxSize, producers), s)
  {
    var start := Create(minThr, maxThr, queueMaxSize, producers);
    CreateKeepsInv(minThr, maxThr, queueMaxSize, producers);
    forall s, m | (Inv(s) && Steady(s) && SamePool(start, s)) && Step(s, m).Some?
      ensures var n := Step(s, m).value; Inv(n) && Steady(n) && SamePool(start, n)
    {
      StepKeepsInv(s, m);
      StepStaysSteady(s, m);
    }
    Invariant(Step, s => Inv(s) && Steady(s) && SamePool(start, s), start, moves);
  }

  /** A producer sleeps only while the queue is full, or its waker is about to broadcast.
      Before shutdown, in a reliable pool, and in any other that has kept a worker, as long
      as the manager has not ordered workers to exit, no task is deserted. */
  lemma NoLostWakeup(minThr: nat, maxThr: nat, queueMaxSize: nat, producers: nat, moves: seq<Move>)
    requires minThr <= maxThr && queueMaxSize > 0
    ensures var s := After(minThr, maxThr, queueMaxSize, producers, moves);
            && (forall p :: 0 <= p < |s.producers| && s.producers[p].pc == Asleep135 ==>
                  s.pool.ring.size == queueMaxSize || Announcing(s.workers))
            && (!s.pool.shrunk ==> Due(s.manager) == 0)
            && (!s.pool.shutdown && (!s.pool.shrunk || Safe(minThr, maxThr, queueMaxSize, producers)) ==>
                  Covered(s) && (Deserted(s) ==> s.pool.live == 0))
            && (Reliable(minThr, maxThr, queueMaxSize, producers) ==> !Deserted(s))
  {
    AfterKeepsInv(minThr, maxThr, queueMaxSize, producers, moves);
    var s := After(minThr, maxThr, queueMaxSize, producers, moves);
    if !s.pool.shutdown { NobodyStopped(s.workers); }
    if Safe(minThr, maxThr, queueMaxSize, producers) {
      SafePoolsStayCovered(minThr, maxThr, queueMaxSize, producers, moves);
    }
  }

  lemma {:induction false} NobodyStopped(ws: seq<Worker>)
    requires forall w :: 0 <= w < |ws| ==> ws[w].pc != Stopped
    ensures Num(ws, Awake) + Num(ws, Sleeping) == Num(ws, Staying)
  {
    if ws != [] {
      NobodyStopped(ws[1..]);
    }
  }

  /** A new pool without workers leaves the first task alone. */
  lemma EmptyPoolDeserts(maxThr: nat, queueMaxSize: nat, producers: nat) returns (n: State)
    requires queueMaxSize > 0 && producers > 0
    ensures Leads(Step, Create(0, maxThr, queueMaxSize, producers), n) && Deserted(n)
  {
    var start := Create(0, maxThr, queueMaxSize, producers);
    LeadsNowhere(Step, start);
    n := Then(start, start, ADD);
    n := Then(start, n, ADD);
    n := Then(start, n, ADD);
    n := Then(start, n, ADD);
    n := Then(start, n, ADD);
  }

  /** No run deserts a task exactly when the pool is reliable. */
  lemma TasksDesertedExactly(minThr: nat, maxThr: nat, queueMaxSize: nat, producers: nat)
    requires minThr <= maxThr && queueMaxSize > 0
    ensures (forall moves :: !Deserted(After(minThr, maxThr, queueMaxSize, producers, moves)))
            <==> Reliable(minThr, maxThr, queueMaxSize, producers)
  {
    if Reliable(minThr, maxThr, queueMaxSize, producers) {
      forall moves ensures !Deserted(After(minThr, maxThr, queueMaxSize, producers, moves)) {
        NoLostWakeup(minThr, maxThr, queueMaxSize, producers, moves);
      }
    } else {
      var n;
      if minThr == 0 {
        n := EmptyPoolDeserts(maxThr, queueMaxSize, producers);
      } else {
        n := LosesAWakeup(minThr, maxThr, queueMaxSize, producers);
      }
      var moves: seq<Move> :| Exec(Step, Create(minThr, maxThr, queueMaxSize, producers), moves) == n;
      assert Deserted(After(minThr, maxThr, queueMaxSize, producers, moves));
    }
  }

  /** No run deserts a task while a worker sleeps that could be woken exactly when the
      pool is safe: the same, but for pools with at most one worker or with none at all. */
  lemma WakeupsLostExactly(minThr: nat, maxThr: nat, queueMaxSize: nat, producers: nat)
    requires minThr <= maxThr && queueMaxSize > 0
    ensures (forall moves :: !Stranded(After(minThr, maxThr, queueMaxSize, producers, moves)))
            <==> Safe(minThr, maxThr, queueMaxSize, producers)
  {
    if Safe(minThr, maxThr, queueMaxSize, producers) {
      forall moves ensures !Stranded(After(minThr, maxThr, queueMaxSize, producers, moves)) {
        SafePoolsStayCovered(minThr, maxThr, queueMaxSize, producers, moves);
      }
    } else {
      var n := LosesAWakeup(minThr, maxThr, queueMaxSize, producers);
      var moves: seq<Move> :| Exec(Step, Create(minThr, maxThr, queueMaxSize, producers), moves) == n;
      assert Stranded(After(minThr, maxThr, queueMaxSize, producers, moves));
    }
  }
}
