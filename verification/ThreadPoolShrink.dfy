/** A run of the thread pool in which the manager's order to shrink costs a wake-up, for
    every pool that can grow and shrink. */
module ThreadPoolShrink {
  import opened Runs
  import opened TaskQueue
  import opened ThreadPool
  import opened ThreadPoolSafety

  const TASK := Task(0, 0)
  // One call of threadpool_add is five such moves; its signal wakes worker 0 if anyone.
  const ADD := ProducerMoves(0, TASK, 0)
  const WORK := WorkerMoves(0)
  const MANAGE := ManagerMoves(0)

  lemma Then(start: State, s: State, m: Move) returns (n: State)
    requires Leads(Step, start, s) && Step(s, m).Some?
    ensures n == Step(s, m).value && Leads(Step, start, n)
  {
    n := Step(s, m).value;
    LeadsByMove(Step, start, s, m);
  }

  /** Producer 0 is at the given statement of its call, the others are between calls. */
  ghost predicate Call(ps: seq<Producer>, pc: ProducerPC) {
    |ps| > 0 && ps[0] == Producer(pc, TASK) && forall p :: 0 < p < |ps| ==> ps[p].pc == Lock131
  }

  /** A pool that can grow and shrink, with nobody in a critical section and all
      producers between calls. */
  ghost predicate Idle(s: State) {
    && s.pool.lock == None && !s.pool.shutdown && Call(s.producers, Lock131)
    && s.pool.ring.Valid() && |s.pool.ring.slots| >= MIN_WAIT_TASK_NUM
    && s.pool.minThr < s.pool.maxThr && s.pool.busy == 0
  }

  /** Both states are idle and differ at most in the queue, its history and worker 0. */
  ghost predicate SameBut(s: State, n: State) {
    && Idle(n) && n.manager == s.manager && n.threads == s.threads
    && n.pool.live == s.pool.live && n.pool.waitExit == s.pool.waitExit && n.pool.minThr == s.pool.minThr
    && n.pool.maxThr == s.pool.maxThr && |n.pool.ring.slots| == |s.pool.ring.slots|
    && |n.workers| == |s.workers| && (forall w :: 0 < w < |s.workers| ==> n.workers[w] == s.workers[w])
  }

  /** What the signal of an add does to the workers. */
  function Woken(ws: seq<Worker>): seq<Worker> {
    if ws != [] && ws[0].pc == Asleep174 then ws[0 := ws[0].(pc := Woken174)] else ws
  }

  lemma Adds(start: State, s: State) returns (n: State)
    requires Leads(Step, start, s) && Idle(s) && s.pool.ring.size < |s.pool.ring.slots|
    requires Num(s.workers, Sleeping) == 0 || (s.workers != [] && s.workers[0].pc == Asleep174)
    ensures Leads(Step, start, n) && SameBut(s, n) && n.pool.ring.size == s.pool.ring.size + 1
    ensures n.workers == Woken(s.workers)
  {
    n := Puts(start, s);
    n := Then(start, n, ADD);
    n := Then(start, n, ADD);
  }

  lemma Puts(start: State, s: State) returns (n: State)
    requires Leads(Step, start, s) && Idle(s) && s.pool.ring.size < |s.pool.ring.slots|
    ensures Leads(Step, start, n) && n == s.(pool := s.pool.(lock := Some(TheProducer(0))), producers := n.producers)
    ensures Call(n.producers, Put142) && n.pool.ring.Put(TASK).Valid()
  {
    PutAppends(s.pool.ring, TASK);
    n := Then(start, s, ADD);
    n := Then(start, n, ADD);
    n := Then(start, n, ADD);
  }

  /** Worker 0 finds a task ... */
  lemma Finds(start: State, s: State) returns (n: State)
    requires Leads(Step, start, s) && Idle(s) && s.pool.ring.size > 0 && |s.workers| > 0 && s.workers[0].pc == Lock169
    ensures Leads(Step, start, n)
    ensures n == s.(pool := s.pool.(lock := Some(TheWorker(0))),
                    workers := s.workers[0 := s.workers[0].(pc := Take198)])
  {
    n := Then(start, s, WORK);
    n := Then(start, n, WORK);
    n := Then(start, n, WORK);
  }

  /** ... takes it ... */
  lemma Takes(start: State, s: State) returns (n: State)
    requires Leads(Step, start, s) && Idle(s) && s.pool.ring.size > 0 && |s.workers| > 0 && s.workers[0].pc == Lock169
    ensures Leads(Step, start, n) && |n.workers| == |s.workers| && n.workers[0].pc == Broadcast204
    ensures n.pool == s.pool.(lock := n.pool.lock, ring := s.pool.ring.Take(), taken := n.pool.taken)
    ensures n == s.(pool := n.pool, workers := s.workers[0 := n.workers[0]])
  {
    n := Finds(start, s);
    n := Then(start, n, WORK);
    assert n.workers == s.workers[0 := n.workers[0]];
  }

  /** ... and runs it. */
  lemma Serves(start: State, s: State) returns (n: State)
    requires Leads(Step, start, s) && Idle(s) && s.pool.ring.size > 0 && |s.workers| > 0 && s.workers[0].pc == Lock169
    ensures Leads(Step, start, n) && SameBut(s, n) && n.pool.ring.size == s.pool.ring.size - 1
            && n.workers[0].pc == Lock169
  {
    TakeRemovesOldest(s.pool.ring);
    n := Takes(start, s);
    n := Executes(start, n);
  }

  lemma Executes(start: State, s: State) returns (n: State)
    requires Leads(Step, start, s) && Call(s.producers, Lock131) && |s.workers| > 0 && s.workers[0].pc == Broadcast204
    ensures Leads(Step, start, n) && |n.workers| == |s.workers| && n.workers[0].pc == Lock169
            && Call(n.producers, Lock131)
    ensures n.pool == s.pool.(lock := None, ran := n.pool.ran)
    ensures n == s.(pool := n.pool, producers := n.producers, workers := s.workers[0 := n.workers[0]])
  {
    n := Then(start, s, WORK);
    assert Call(n.producers, Lock131);
    n := Counts(start, n);
    assert n.workers == s.workers[0 := n.workers[0]];
  }

  lemma Counts(start: State, s: State) returns (n: State)
    requires Leads(Step, start, s) && |s.workers| > 0 && s.workers[0].pc == CountUp210
    ensures Leads(Step, start, n)
    ensures n == s.(pool := s.pool.(ran := n.pool.ran), workers := s.workers[0 := s.workers[0].(pc := Lock169)])
  {
    n := Then(start, s, WORK);
    n := Then(start, n, WORK);
    n := Then(start, n, WORK);
  }

  /** The producer fills the queue while no worker has started. */
  lemma Fills(start: State, s: State, count: nat) returns (n: State)
    requires Leads(Step, start, s) && Idle(s) && s.pool.ring.size + count <= |s.pool.ring.slots| && AtLock(s.workers)
    ensures Leads(Step, start, n) && SameBut(s, n) && n.pool.ring.size == s.pool.ring.size + count
            && n.workers == s.workers
    decreases count
  {
    n := s;
    if count > 0 {
      NoneSleep(s.workers);
      n := Adds(start, s);
      n := Fills(start, n, count - 1);
    }
  }

  /** No worker has begun another round. */
  ghost predicate AtLock(ws: seq<Worker>) { forall w :: 0 <= w < |ws| ==> ws[w].pc == Lock169 }

  lemma NoneSleep(ws: seq<Worker>)
    requires AtLock(ws)
    ensures Num(ws, Sleeping) == 0
  {
    AllAwake(ws);
  }

  /** Worker 0 empties the queue. */
  lemma Empties(start: State, s: State) returns (n: State)
    requires Leads(Step, start, s) && Idle(s) && |s.workers| > 0 && s.workers[0].pc == Lock169
    ensures Leads(Step, start, n) && SameBut(s, n) && n.pool.ring.size == 0 && n.workers[0].pc == Lock169
    decreases s.pool.ring.size
  {
    n := s;
    if s.pool.ring.size > 0 {
      n := Serves(start, s);
      n := Empties(start, n);
    }
  }

  /** The manager takes its snapshots. */
  lemma Looks(start: State, s: State) returns (n: State)
    requires Leads(Step, start, s) && Idle(s) && s.manager.pc == Loop232
    ensures Leads(Step, start, n)
    ensures n == s.(manager := s.manager.(
              pc := Decide245, queueSize := s.pool.ring.size, live := s.pool.live, busy := 0))
  {
    n := Then(start, s, MANAGE);
    n := Then(start, n, MANAGE);
    n := Then(start, n, MANAGE);
    n := Then(start, n, MANAGE);
  }

  /** With ten tasks waiting the manager decides to grow ... */
  lemma Decides(start: State, s: State) returns (n: State)
    requires Leads(Step, start, s) && Idle(s) && s.pool.ring.size >= MIN_WAIT_TASK_NUM && s.pool.live < s.pool.maxThr
    requires s.manager.pc == Loop232
    ensures Leads(Step, start, n)
    ensures n == s.(pool := s.pool.(lock := Some(TheManager)),
                    manager := Manager(Grow250, s.pool.ring.size, s.pool.live, 0, 0, 0))
  {
    n := Looks(start, s);
    n := Then(start, n, MANAGE);
    n := Then(start, n, MANAGE);
  }

  /** A new pool's growth pass under way: the first `live` slots are taken. */
  ghost predicate Growing(s: State) {
    && s.manager.pc == Grow250 && s.manager.i <= s.pool.maxThr == |s.threads|
    && s.manager.live == s.pool.minThr < s.pool.maxThr
    && s.pool.live == |s.workers| == (if s.manager.i < s.pool.minThr then s.pool.minThr else s.manager.i)
    && s.manager.add == s.pool.live - s.pool.minThr <= DEFAULT_THREAD_VARY
    && AtLock(s.workers)
    && (forall w :: 0 <= w < |s.workers| ==> !s.workers[w].gone && s.threads[w] == Some(w))
    && (forall j :: |s.workers| <= j < |s.threads| ==> s.threads[j].None?)
  }

  /** ... and starts workers until its pass ends. */
  lemma GrowsOn(start: State, s: State) returns (n: State)
    requires Leads(Step, start, s) && Growing(s)
    ensures Leads(Step, start, n) && Growing(n) && !GrowGoesOn(n.pool, n.manager)
    ensures n == s.(pool := s.pool.(live := n.pool.live), workers := n.workers, threads := n.threads,
                    manager := n.manager)
    decreases s.pool.maxThr - s.manager.i
  {
    n := s;
    if GrowGoesOn(s.pool, s.manager) {
      n := Then(start, s, MANAGE);
      n := GrowsOn(start, n);
    }
  }

  /** A pool larger than its minimum whose workers are about to look at the queue. */
  ghost predicate Grown(s: State) {
    && |s.workers| == s.pool.live > s.pool.minThr && (s.pool.maxThr >= 2 ==> s.pool.live >= 2)
    && AtLock(s.workers) && s.manager.pc == Loop232
  }

  lemma Grows(start: State, s: State) returns (n: State)
    requires Leads(Step, start, s) && Idle(s) && s.pool.ring.size >= MIN_WAIT_TASK_NUM && s.manager.pc == Loop232
    requires s.pool.live == |s.workers| == s.pool.minThr && |s.threads| == s.pool.maxThr && AtLock(s.workers)
    requires forall w :: 0 <= w < |s.workers| ==> !s.workers[w].gone && s.threads[w] == Some(w)
    requires forall j :: |s.workers| <= j < |s.threads| ==> s.threads[j].None?
    ensures Leads(Step, start, n) && Idle(n) && Grown(n) && n.pool.maxThr == s.pool.maxThr
  {
    n := Decides(start, s);
    n := GrowsOn(start, n);
    n := Then(start, n, MANAGE);
    n := Then(start, n, MANAGE);
  }

  /** With the queue empty and nobody busy the manager orders workers to exit, ... */
  lemma Orders(start: State, s: State) returns (n: State)
    requires Leads(Step, start, s) && Idle(s) && s.pool.ring.size == 0 && Grown(s)
    ensures Leads(Step, start, n) && n.manager.pc == Signal274 && n.manager.i == 0
    ensures n == s.(pool := s.pool.(waitExit := DEFAULT_THREAD_VARY, shrunk := true), manager := n.manager)
  {
    n := Spares(start, s);
    n := Then(start, n, MANAGE);
    n := Then(start, n, MANAGE);
  }

  lemma Spares(start: State, s: State) returns (n: State)
    requires Leads(Step, start, s) && Idle(s) && s.pool.ring.size == 0 && Grown(s)
    ensures Leads(Step, start, n) && n.manager.pc == Lock267 && n == s.(manager := n.manager)
  {
    n := Looks(start, s);
    n := Then(start, n, MANAGE);
    assert n.manager.pc == Decide263;
    n := Then(start, n, MANAGE);
  }

  /** ... and its signals find nobody asleep. */
  lemma Signals(start: State, s: State) returns (n: State)
    requires Leads(Step, start, s) && s.manager.pc == Signal274 && AtLock(s.workers)
    ensures Leads(Step, start, n) && n.manager.pc == Loop232 && n == s.(manager := n.manager)
    decreases DEFAULT_THREAD_VARY - s.manager.i
  {
    NoneSleep(s.workers);
    n := Then(start, s, MANAGE);
    if s.manager.i < DEFAULT_THREAD_VARY {
      n := Signals(start, n);
    }
  }

  /** The workers from k on find the queue empty and sleep. */
  lemma FallAsleep(start: State, s: State, k: nat) returns (n: State)
    requires Leads(Step, start, s) && Idle(s) && s.pool.ring.size == 0 && k <= |s.workers|
    requires forall w :: 0 <= w < k ==> s.workers[w].pc == Asleep174
    requires forall w :: k <= w < |s.workers| ==> s.workers[w].pc == Lock169
    ensures Leads(Step, start, n) && n == s.(workers := n.workers) && |n.workers| == |s.workers|
    ensures forall w :: 0 <= w < |n.workers| ==> n.workers[w].pc == Asleep174
    decreases |s.workers| - k
  {
    n := s;
    if k < |s.workers| {
      n := Then(start, n, WorkerMoves(k));
      n := Then(start, n, WorkerMoves(k));
      n := FallAsleep(start, n, k + 1);
    }
  }

  /** The woken worker obeys the order instead of taking the task. */
  lemma Obeys(start: State, s: State) returns (n: State)
    requires Leads(Step, start, s) && Idle(s) && s.pool.live > s.pool.minThr && s.pool.waitExit > 0
    requires |s.workers| > 0 && s.workers[0].pc == Woken174
    ensures Leads(Step, start, n) && n.pool.ring == s.pool.ring && !n.pool.shutdown
    ensures n == s.(pool := n.pool, workers := s.workers[0 := s.workers[0].(pc := Retired)])
  {
    n := Then(start, s, WORK);
    n := Then(start, n, WORK);
    n := Then(start, n, WORK);
  }

  /** From a pool with an empty queue and workers to spare, ... */
  lemma Strands(start: State, s: State) returns (n: State)
    requires Leads(Step, start, s) && Idle(s) && Grown(s) && s.pool.ring.size == 0
    ensures Leads(Step, start, n) && Deserted(n) && (s.pool.maxThr >= 2 ==> Stranded(n))
  {
    n := Orders(start, s);
    n := Signals(start, n);
    n := FallAsleep(start, n, 0);
    n := Wastes(start, n);
  }

  /** ... where the one signal of a new task wakes a worker that leaves. */
  lemma Wastes(start: State, s: State) returns (n: State)
    requires Leads(Step, start, s) && Idle(s) && s.pool.ring.size == 0 && s.manager.pc == Loop232
    requires s.pool.live > s.pool.minThr && s.pool.waitExit > 0
    requires |s.workers| > 0 && forall w :: 0 <= w < |s.workers| ==> s.workers[w].pc == Asleep174
    ensures Leads(Step, start, n) && Deserted(n) && (|s.workers| >= 2 ==> Stranded(n))
  {
    n := Adds(start, s);
    n := Obeys(start, n);
    if |s.workers| >= 2 { NumPositive(n.workers, 1, Sleeping); }
    NoneAwake(n.workers);
  }

  lemma {:induction false} NoneAwake(ws: seq<Worker>)
    requires forall w :: 0 <= w < |ws| ==> ws[w].pc == Asleep174 || ws[w].pc == Retired
    ensures Num(ws, Awake) == 0
  {
    if ws != [] {
      NoneAwake(ws[1..]);
    }
  }

  /** ... which every pool can get to that may grow and shrink. */
  lemma LosesAWakeup(minThr: nat, maxThr: nat, queueMaxSize: nat, producers: nat) returns (n: State)
    requires minThr < maxThr && queueMaxSize >= MIN_WAIT_TASK_NUM && producers > 0
    ensures Leads(Step, Create(minThr, maxThr, queueMaxSize, producers), n)
    ensures Deserted(n) && (maxThr >= 2 ==> Stranded(n))
  {
    var start := Create(minThr, maxThr, queueMaxSize, producers);
    LeadsNowhere(Step, start);
    n := Fills(start, start, MIN_WAIT_TASK_NUM);
    n := Grows(start, n);
    n := Empties(start, n);
    n := Strands(start, n);
  }
}
