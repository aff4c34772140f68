/** The thread pool of thread/thread_pool/thread_pool.c as a step system: any
    number of producers, workers and growth passes, interleaved statement by
    statement.

    `pool->lock` has an owner.  A statement that ends a critical section is one
    move with the unlock.  Each critical section of `thread_counter` is a single
    access to `busy_thr_num` and is one move.  A condition wait releases the lock
    and sleeps in one move; it ends by a signal, a broadcast or spuriously, and the
    thread then takes the lock again (IEEE Std 1003.1, pthread_cond_wait). */
module ThreadPool {
  import opened Runs
  import opened TaskQueue

  const MIN_WAIT_TASK_NUM := 10
  const DEFAULT_THREAD_VARY := 10

  /** The next statement of `threadpool_thread`. */
  datatype WorkerPC =
    | Lock169 | Test171 | Asleep174 | Woken174 | ExitTest176 | LiveTest180 | Check191 | Take198 | Broadcast204
    | CountUp210 | Run213 | CountDown218
    | Retired   // left through line 185
    | Stopped   // left through line 195

  /** A worker: the task it was last handed and that task's number in the order of
      acceptance, its slot in `threads`, and whether its thread has terminated
      (`is_thread_alive` is false). */
  datatype Worker = Worker(pc: WorkerPC, task: Task, ticket: nat, slot: nat, gone: bool)

  /** The next statement of `threadpool_add`, and the task being added. */
  datatype ProducerPC = Lock131 | Test133 | Asleep135 | Woken135 | Check137 | Put142 | Signal154

  datatype Producer = Producer(pc: ProducerPC, task: Task)

  /** The next statement of `adjust_thread`, and its locals. */
  datatype ManagerPC =
    | Loop232 | Lock235 | Snapshot236 | Snapshot241 | Decide245 | Lock247 | Grow250 | Decide263
    | Lock267 | Order268 | Signal274 | Finished

  datatype Manager = Manager(pc: ManagerPC, queueSize: int, live: int, busy: int, i: nat, add: nat)

  datatype Thread = TheWorker(w: nat) | TheProducer(p: nat) | TheManager

  /** `struct threadpool_t`, with a history: the tasks accepted by adds, the worker
      each was handed to in the order they were taken, the numbers of the tasks
      that have run, and whether the manager ever ordered workers to exit. */
  datatype Pool = Pool(
    minThr: nat, maxThr: nat, lock: Option<Thread>, ring: TaskRing,
    live: int, busy: int, waitExit: int, shutdown: bool,
    accepted: seq<Task>, taken: seq<nat>, ran: seq<nat>, shrunk: bool)

  datatype State = State(
    pool: Pool, threads: seq<Option<nat>>,
    workers: seq<Worker>, producers: seq<Producer>, manager: Manager)

  /** Who moves.  `pick` is the sleeper a signal wakes. */
  datatype Move =
    | WorkerMoves(w: nat)
    | ProducerMoves(p: nat, task: Task, pick: nat)
    | ManagerMoves(pick: nat)
    | WorkerWakes(w: nat)    // spuriously
    | ProducerWakes(p: nat)  // spuriously
    | WorkerEnds(w: nat)     // a thread past pthread_exit terminates
    | Shutdown               // line 288

  /** Lines 69-121, for `producers` threads that call threadpool_add. */
  function Create(minThr: nat, maxThr: nat, queueMaxSize: nat, producers: nat): State
    requires minThr <= maxThr && queueMaxSize > 0
  {
    State(Pool(minThr, maxThr, None, TaskRing(seq(queueMaxSize, _ => Task(0, 0)), 0, 0, 0),
               minThr, 0, 0, false, [], [], [], false),
          seq(maxThr, (i: nat) => if i < minThr then Some(i) else None),
          seq(minThr, (i: nat) => Worker(Lock169, Task(0, 0), 0, i, false)),
          seq(producers, _ => Producer(Lock131, Task(0, 0))),
          Manager(Loop232, 0, 0, 0, 0, 0))
  }

  function Step(s: State, m: Move): Option<State> {
    match m
    case WorkerMoves(w) => WorkerMove(s, w)
    case ProducerMoves(p, task, pick) => ProducerMove(s, p, task, pick)
    case ManagerMoves(pick) => ManagerMove(s, pick)
    case WorkerWakes(w) =>
      if w < |s.workers| && s.workers[w].pc == Asleep174
      then Some(s.(workers := s.workers[w := s.workers[w].(pc := Woken174)])) else None
    case ProducerWakes(p) =>
      if p < |s.producers| && s.producers[p].pc == Asleep135
      then Some(s.(producers := s.producers[p := s.producers[p].(pc := Woken135)])) else None
    case WorkerEnds(w) =>
      if w < |s.workers| && Left(s.workers[w])
      then Some(s.(workers := s.workers[w := s.workers[w].(gone := true)])) else None
    case Shutdown => Some(s.(pool := s.pool.(shutdown := true)))
  }

  predicate Left(w: Worker) { w.pc == Retired || w.pc == Stopped }

  function WorkerMove(s: State, w: nat): Option<State> {
    if w >= |s.workers| then None else
    match WorkerStep(s.pool, s.workers[w], w)
    case None => None
    case Some((pool, u)) =>
      Some(s.(pool := pool, workers := s.workers[w := u],
              producers := if s.workers[w].pc == Broadcast204 then WakeAll(s.producers) else s.producers))
  }

  /** One statement of worker `me`; None while it cannot go on. */
  function WorkerStep(g: Pool, u: Worker, me: nat): Option<(Pool, Worker)> {
    match u.pc
    case Lock169 => if g.lock.Some? then None else Some((g.(lock := Some(TheWorker(me))), u.(pc := Test171)))
    case Test171 =>
      if g.ring.size == 0 && !g.shutdown then Some((g.(lock := None), u.(pc := Asleep174)))
      else Some((g, u.(pc := Check191)))
    case Asleep174 => None
    case Woken174 => if g.lock.Some? then None else Some((g.(lock := Some(TheWorker(me))), u.(pc := ExitTest176)))
    case ExitTest176 =>
      if g.waitExit > 0 then Some((g.(waitExit := g.waitExit - 1), u.(pc := LiveTest180)))
      else Some((g, u.(pc := Test171)))
    case LiveTest180 =>
      if g.live > g.minThr then Some((g.(live := g.live - 1, lock := None), u.(pc := Retired)))
      else Some((g, u.(pc := Test171)))
    case Check191 =>
      if g.shutdown then Some((g.(lock := None), u.(pc := Stopped))) else Some((g, u.(pc := Take198)))
    case Take198 =>
      if g.ring.size == 0 || g.ring.front >= |g.ring.slots| then None  // never the case: LockHolderGoesOn
      else Some((g.(ring := g.ring.Take(), taken := g.taken + [me]),
                 u.(pc := Broadcast204, task := g.ring.Front(), ticket := |g.taken|)))
    case Broadcast204 => Some((g.(lock := None), u.(pc := CountUp210)))
    case CountUp210 => Some((g.(busy := g.busy + 1), u.(pc := Run213)))
    case Run213 => Some((g.(ran := g.ran + [u.ticket]), u.(pc := CountDown218)))
    case CountDown218 => Some((g.(busy := g.busy - 1), u.(pc := Lock169)))
    case Retired => None
    case Stopped => None
  }

  /** pthread_cond_broadcast(queue_not_full). */
  function WakeAll(ps: seq<Producer>): (r: seq<Producer>)
    ensures |r| == |ps|
    ensures forall p :: 0 <= p < |ps| ==> r[p] == if ps[p].pc == Asleep135 then ps[p].(pc := Woken135) else ps[p]
  {
    seq(|ps|, p requires 0 <= p < |ps| => if ps[p].pc == Asleep135 then ps[p].(pc := Woken135) else ps[p])
  }

  function ProducerMove(s: State, p: nat, task: Task, pick: nat): Option<State> {
    if p >= |s.producers| then None else
    match ProducerStep(s.pool, s.producers[p], p, task)
    case None => None
    case Some((pool, u)) =>
      var n := s.(pool := pool, producers := s.producers[p := u]);
      if s.producers[p].pc != Signal154 then Some(n) else
      match Signal(s.workers, pick)
      case None => None
      case Some(workers) => Some(n.(workers := workers))
  }

  /** One statement of producer `me`; a new call of threadpool_add brings `task`. */
  function ProducerStep(g: Pool, u: Producer, me: nat, task: Task): Option<(Pool, Producer)> {
    match u.pc
    case Lock131 => if g.lock.Some? then None else Some((g.(lock := Some(TheProducer(me))), Producer(Test133, task)))
    case Test133 =>
      if g.ring.size == |g.ring.slots| && !g.shutdown then Some((g.(lock := None), u.(pc := Asleep135)))
      else Some((g, u.(pc := Check137)))
    case Asleep135 => None
    case Woken135 => if g.lock.Some? then None else Some((g.(lock := Some(TheProducer(me))), u.(pc := Test133)))
    case Check137 =>
      // The source unlocks here but does not return: see TaskQueue.AddAfterShutdownKeepsRing.
      if g.shutdown then Some((g.(lock := None), u.(pc := Lock131))) else Some((g, u.(pc := Put142)))
    case Put142 =>
      if |g.ring.slots| == 0 || g.ring.rear >= |g.ring.slots| then None  // never the case: LockHolderGoesOn
      else Some((g.(ring := g.ring.Put(u.task), accepted := g.accepted + [u.task]), u.(pc := Signal154)))
    case Signal154 => Some((g.(lock := None), u.(pc := Lock131)))
  }

  /** pthread_cond_signal(queue_not_empty): wakes the chosen sleeper, or nobody when
      nobody sleeps; None when the choice is not a sleeper although there is one. */
  function Signal(ws: seq<Worker>, pick: nat): Option<seq<Worker>> {
    if pick < |ws| && ws[pick].pc == Asleep174 then Some(ws[pick := ws[pick].(pc := Woken174)])
    else if Num(ws, Sleeping) == 0 then Some(ws)
    else None
  }

  function ManagerMove(s: State, pick: nat): Option<State> {
    var m := s.manager;
    if m.pc == Grow250 && GrowGoesOn(s.pool, m) && m.i < |s.threads| then Some(GrowSlot(s))
    else if m.pc == Signal274 && m.i < DEFAULT_THREAD_VARY then
      match Signal(s.workers, pick)
      case None => None
      case Some(workers) => Some(s.(workers := workers, manager := m.(i := m.i + 1)))
    else
      match ManagerStep(s.pool, m)
      case None => None
      case Some((pool, n)) => Some(s.(pool := pool, manager := n))
  }

  /** The guard of line 250. */
  predicate GrowGoesOn(g: Pool, m: Manager) {
    m.i < g.maxThr && m.add < DEFAULT_THREAD_VARY && g.live < g.maxThr
  }

  /** One round of lines 250-258: a free slot gets a new worker. */
  function GrowSlot(s: State): State
    requires s.manager.i < |s.threads|
  {
    var m := s.manager;
    if Free(s.threads[m.i], s.workers) then
      s.(pool := s.pool.(live := s.pool.live + 1),
         workers := s.workers + [Worker(Lock169, Task(0, 0), 0, m.i, false)],
         threads := s.threads[m.i := Some(|s.workers|)],
         manager := m.(i := m.i + 1, add := m.add + 1))
    else s.(manager := m.(i := m.i + 1))
  }

  /** Line 252: the slot was never used or its thread has terminated. */
  predicate Free(slot: Option<nat>, ws: seq<Worker>) {
    slot.None? || (slot.value < |ws| && ws[slot.value].gone)
  }

  /** The manager's statements other than a growth round and a signal. */
  function ManagerStep(g: Pool, m: Manager): Option<(Pool, Manager)> {
    match m.pc
    case Loop232 => Some((g, m.(pc := if g.shutdown then Finished else Lock235)))
    case Lock235 => if g.lock.Some? then None else Some((g.(lock := Some(TheManager)), m.(pc := Snapshot236)))
    case Snapshot236 => Some((g.(lock := None), m.(pc := Snapshot241, queueSize := g.ring.size, live := g.live)))
    case Snapshot241 => Some((g, m.(pc := Decide245, busy := g.busy)))
    case Decide245 =>
      Some((g, m.(pc := if m.queueSize >= MIN_WAIT_TASK_NUM && m.live < g.maxThr then Lock247 else Decide263)))
    case Lock247 =>
      if g.lock.Some? then None else Some((g.(lock := Some(TheManager)), m.(pc := Grow250, i := 0, add := 0)))
    case Grow250 => Some((g.(lock := None), m.(pc := Decide263)))
    case Decide263 =>
      Some((g, m.(pc := if m.busy * 2 < m.live && m.live > g.minThr then Lock267 else Loop232)))
    case Lock267 => if g.lock.Some? then None else Some((g.(lock := Some(TheManager)), m.(pc := Order268)))
    case Order268 =>
      Some((g.(lock := None, waitExit := DEFAULT_THREAD_VARY, shrunk := true), m.(pc := Signal274, i := 0)))
    case Signal274 => Some((g, m.(pc := Loop232)))
    case Finished => None
  }

  // ---- Counting workers.

  datatype Kind =
    | Staying   // not left through line 185: counted by live_thr_num
    | Running   // between lines 211 and 219: counted by busy_thr_num
    | Sleeping  // in the wait set of queue_not_empty
    | Awake     // neither asleep nor leaving

  predicate Is(w: Worker, k: Kind) {
    match k
    case Staying => w.pc != Retired
    case Running => w.pc == Run213 || w.pc == CountDown218
    case Sleeping => w.pc == Asleep174
    case Awake => w.pc != Asleep174 && !Left(w)
  }

  function One(w: Worker, k: Kind): nat { if Is(w, k) then 1 else 0 }

  function Num(ws: seq<Worker>, k: Kind): nat {
    if ws == [] then 0 else One(ws[0], k) + Num(ws[1..], k)
  }

  lemma {:induction false} NumMoved(ws: seq<Worker>, i: nat, w: Worker, k: Kind)
    requires i < |ws|
    ensures Num(ws[i := w], k) == Num(ws, k) + One(w, k) - One(ws[i], k)
  {
    if i == 0 {
      assert ws[i := w][1..] == ws[1..];
    } else {
      assert ws[i := w][1..] == ws[1..][i - 1 := w];
      NumMoved(ws[1..], i - 1, w, k);
    }
  }

  lemma {:induction false} NumAdded(ws: seq<Worker>, w: Worker, k: Kind)
    ensures Num(ws + [w], k) == Num(ws, k) + One(w, k)
  {
    if ws != [] {
      assert (ws + [w])[1..] == ws[1..] + [w];
      NumAdded(ws[1..], w, k);
    }
  }

  lemma {:induction false} NumPositive(ws: seq<Worker>, i: nat, k: Kind)
    requires i < |ws| && Is(ws[i], k)
    ensures Num(ws, k) > 0
  {
    if i > 0 {
      NumPositive(ws[1..], i - 1, k);
    }
  }

  /** A worker that runs a task has not left: busy never exceeds live. */
  lemma {:induction false} RunningStay(ws: seq<Worker>)
    ensures Num(ws, Running) <= Num(ws, Staying)
  {
    if ws != [] {
      RunningStay(ws[1..]);
    }
  }

  /** A signal only turns a sleeper into a woken worker. */
  lemma SignalCounts(ws: seq<Worker>, pick: nat)
    requires Signal(ws, pick).Some?
    ensures var n := Signal(ws, pick).value;
            && Num(n, Staying) == Num(ws, Staying)
            && Num(n, Running) == Num(ws, Running)
            && (Num(ws, Sleeping) > 0 ==>
                  Num(n, Awake) == Num(ws, Awake) + 1 && Num(n, Sleeping) == Num(ws, Sleeping) - 1)
            && (Num(ws, Sleeping) == 0 ==> n == ws)
  {
    if pick < |ws| && ws[pick].pc == Asleep174 {
      var w := ws[pick].(pc := Woken174);
      NumMoved(ws, pick, w, Staying);
      NumMoved(ws, pick, w, Running);
      NumMoved(ws, pick, w, Sleeping);
      NumMoved(ws, pick, w, Awake);
      NumPositive(ws, pick, Sleeping);
    }
  }
}
