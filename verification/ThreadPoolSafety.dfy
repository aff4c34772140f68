/** What every run of the thread pool keeps. */
module ThreadPoolSafety {
  import opened Runs
  import opened TaskQueue
  import opened ThreadPool

  predicate WorkerHolds(pc: WorkerPC) {
    pc == Test171 || pc == ExitTest176 || pc == LiveTest180 || pc == Check191 || pc == Take198 || pc == Broadcast204
  }

  predicate ProducerHolds(pc: ProducerPC) { pc == Test133 || pc == Check137 || pc == Put142 || pc == Signal154 }

  predicate ManagerHolds(pc: ManagerPC) { pc == Snapshot236 || pc == Grow250 || pc == Order268 }

  /** The lock's owner is exactly the thread inside a critical section. */
  ghost predicate LockOk(lock: Option<Thread>, ws: seq<Worker>, ps: seq<Producer>, m: Manager) {
    && (forall w :: 0 <= w < |ws| ==> (WorkerHolds(ws[w].pc) <==> lock == Some(TheWorker(w))))
    && (forall p :: 0 <= p < |ps| ==> (ProducerHolds(ps[p].pc) <==> lock == Some(TheProducer(p))))
    && (ManagerHolds(m.pc) <==> lock == Some(TheManager))
    && (match lock
        case Some(TheWorker(w)) => w < |ws|
        case Some(TheProducer(p)) => p < |ps|
        case _ => true)
  }

  /** The lock only passes between nobody and the thread that moves. */
  predicate Hands(before: Option<Thread>, after: Option<Thread>, mover: Thread) {
    before == after || (before == None && after == Some(mover)) || (before == Some(mover) && after == None)
  }

  lemma WorkerLock(g: Pool, u: Worker, me: nat)
    requires WorkerHolds(u.pc) <==> g.lock == Some(TheWorker(me))
    requires WorkerStep(g, u, me).Some?
    ensures var (n, v) := WorkerStep(g, u, me).value;
            Hands(g.lock, n.lock, TheWorker(me)) && (WorkerHolds(v.pc) <==> n.lock == Some(TheWorker(me)))
  {
  }

  lemma ProducerLock(g: Pool, u: Producer, me: nat, task: Task)
    requires ProducerHolds(u.pc) <==> g.lock == Some(TheProducer(me))
    requires ProducerStep(g, u, me, task).Some?
    ensures var (n, v) := ProducerStep(g, u, me, task).value;
            Hands(g.lock, n.lock, TheProducer(me)) && (ProducerHolds(v.pc) <==> n.lock == Some(TheProducer(me)))
  {
  }

  lemma ManagerLock(g: Pool, m: Manager)
    requires ManagerHolds(m.pc) <==> g.lock == Some(TheManager)
    requires ManagerStep(g, m).Some?
    ensures var (n, v) := ManagerStep(g, m).value;
            Hands(g.lock, n.lock, TheManager) && (ManagerHolds(v.pc) <==> n.lock == Some(TheManager))
  {
  }

  ghost predicate Locked(s: State) { LockOk(s.pool.lock, s.workers, s.producers, s.manager) }

  lemma WorkerKeepsLock(s: State, w: nat)
    requires Locked(s) && WorkerMove(s, w).Some?
    ensures Locked(WorkerMove(s, w).value)
  {
    WorkerLock(s.pool, s.workers[w], w);
  }

  lemma ProducerKeepsLock(s: State, p: nat, task: Task, pick: nat)
    requires Locked(s) && ProducerMove(s, p, task, pick).Some?
    ensures Locked(ProducerMove(s, p, task, pick).value)
  {
    ProducerLock(s.pool, s.producers[p], p, task);
  }

  lemma ManagerKeepsLock(s: State, pick: nat)
    requires Locked(s) && ManagerMove(s, pick).Some?
    ensures Locked(ManagerMove(s, pick).value)
  {
    if ManagerStep(s.pool, s.manager).Some? { ManagerLock(s.pool, s.manager); }
  }

  lemma StepKeepsLock(s: State, m: Move)
    requires Locked(s) && Step(s, m).Some?
    ensures Locked(Step(s, m).value)
  {
    match m
    case WorkerMoves(w) => WorkerKeepsLock(s, w);
    case ProducerMoves(p, task, pick) => ProducerKeepsLock(s, p, task, pick);
    case ManagerMoves(pick) => ManagerKeepsLock(s, pick);
    case _ =>
  }

  // ---- The queue.

  predicate WorkerReady(g: Pool, u: Worker) {
    && (u.pc == Check191 ==> g.ring.size > 0 || g.shutdown)
    && (u.pc == Take198 ==> g.ring.size > 0)
  }

  predicate ProducerReady(g: Pool, u: Producer) {
    && (u.pc == Check137 ==> g.ring.size < |g.ring.slots| || g.shutdown)
    && (u.pc == Put142 ==> g.ring.size < |g.ring.slots|)
  }

  /** The ring is well formed, and whoever is about to use it has found it usable. */
  ghost predicate Queued(s: State) {
    && s.pool.ring.Valid()
    && (forall w :: 0 <= w < |s.workers| ==> WorkerReady(s.pool, s.workers[w]))
    && (forall p :: 0 <= p < |s.producers| ==> ProducerReady(s.pool, s.producers[p]))
  }

  lemma WorkerQueue(g: Pool, u: Worker, me: nat)
    requires g.ring.Valid() && WorkerReady(g, u) && WorkerStep(g, u, me).Some?
    ensures var (n, v) := WorkerStep(g, u, me).value;
            && n.ring.Valid() && n.shutdown == g.shutdown && WorkerReady(n, v)
            && (u.pc != Take198 ==> n.ring == g.ring)
  {
    if u.pc == Take198 { TakeRemovesOldest(g.ring); }
  }

  lemma ProducerQueue(g: Pool, u: Producer, me: nat, task: Task)
    requires g.ring.Valid() && ProducerReady(g, u) && ProducerStep(g, u, me, task).Some?
    ensures var (n, v) := ProducerStep(g, u, me, task).value;
            && n.ring.Valid() && n.shutdown == g.shutdown && ProducerReady(n, v)
            && (u.pc != Put142 ==> n.ring == g.ring)
  {
    if u.pc == Put142 { PutAppends(g.ring, u.task); }
  }

  lemma ManagerQueue(g: Pool, m: Manager)
    requires ManagerStep(g, m).Some?
    ensures ManagerStep(g, m).value.0.ring == g.ring && ManagerStep(g, m).value.0.shutdown == g.shutdown
  {
  }

  lemma WorkerKeepsQueue(s: State, w: nat)
    requires Locked(s) && Queued(s) && WorkerMove(s, w).Some?
    ensures Queued(WorkerMove(s, w).value)
  {
    WorkerQueue(s.pool, s.workers[w], w);
  }

  lemma ProducerKeepsQueue(s: State, p: nat, task: Task, pick: nat)
    requires Locked(s) && Queued(s) && ProducerMove(s, p, task, pick).Some?
    ensures Queued(ProducerMove(s, p, task, pick).value)
  {
    ProducerQueue(s.pool, s.producers[p], p, task);
  }

  lemma ManagerKeepsQueue(s: State, pick: nat)
    requires Queued(s) && ManagerMove(s, pick).Some?
    ensures Queued(ManagerMove(s, pick).value)
  {
    if ManagerStep(s.pool, s.manager).Some? { ManagerQueue(s.pool, s.manager); }
  }

  // ---- The counters.

  /** Both counters are exact and the pool size is in bounds. */
  ghost predicate Sized(s: State) {
    && s.pool.minThr <= s.pool.live <= s.pool.maxThr
    && s.pool.live == Num(s.workers, Staying)
    && s.pool.busy == Num(s.workers, Running)
  }

  lemma WorkerSize(g: Pool, u: Worker, me: nat)
    requires WorkerStep(g, u, me).Some?
    ensures var (n, v) := WorkerStep(g, u, me).value;
            && n.minThr == g.minThr && n.maxThr == g.maxThr
            && n.live - g.live == One(v, Staying) - One(u, Staying)
            && n.busy - g.busy == One(v, Running) - One(u, Running)
            && (n.live < g.live ==> n.live >= g.minThr)
  {
  }

  lemma WorkerKeepsSize(s: State, w: nat)
    requires Sized(s) && WorkerMove(s, w).Some?
    ensures Sized(WorkerMove(s, w).value)
  {
    var v := WorkerStep(s.pool, s.workers[w], w).value.1;
    WorkerSize(s.pool, s.workers[w], w);
    NumMoved(s.workers, w, v, Staying);
    NumMoved(s.workers, w, v, Running);
  }

  lemma ProducerKeepsSize(s: State, p: nat, task: Task, pick: nat)
    requires Sized(s) && ProducerMove(s, p, task, pick).Some?
    ensures Sized(ProducerMove(s, p, task, pick).value)
  {
    if s.producers[p].pc == Signal154 { SignalCounts(s.workers, pick); }
  }

  lemma ManagerKeepsSize(s: State, pick: nat)
    requires Sized(s) && ManagerMove(s, pick).Some?
    ensures Sized(ManagerMove(s, pick).value)
  {
    var w := Worker(Lock169, Task(0, 0), 0, s.manager.i, false);
    NumAdded(s.workers, w, Staying);
    NumAdded(s.workers, w, Running);
    if Signal(s.workers, pick).Some? { SignalCounts(s.workers, pick); }
  }

  // ---- The thread table.

  /** Every worker whose thread exists is in its own slot of `threads`. */
  ghost predicate Slotted(s: State) {
    && |s.threads| == s.pool.maxThr
    && (forall w :: 0 <= w < |s.workers| ==> InSlot(s.threads, s.workers[w], w))
    && (forall i :: 0 <= i < |s.threads| && s.threads[i].Some? ==>
          s.threads[i].value < |s.workers| && s.workers[s.threads[i].value].slot == i)
  }

  predicate InSlot(threads: seq<Option<nat>>, u: Worker, me: nat) {
    if u.gone then Left(u) else u.slot < |threads| && threads[u.slot] == Some(me)
  }

  lemma WorkerSlot(g: Pool, u: Worker, me: nat)
    requires WorkerStep(g, u, me).Some?
    ensures var (n, v) := WorkerStep(g, u, me).value;
            v.slot == u.slot && v.gone == u.gone && !Left(u) && n.maxThr == g.maxThr
  {
  }

  lemma WorkerKeepsSlots(s: State, w: nat)
    requires Slotted(s) && WorkerMove(s, w).Some?
    ensures Slotted(WorkerMove(s, w).value)
  {
    WorkerSlot(s.pool, s.workers[w], w);
  }

  lemma ProducerKeepsSlots(s: State, p: nat, task: Task, pick: nat)
    requires Slotted(s) && ProducerMove(s, p, task, pick).Some?
    ensures Slotted(ProducerMove(s, p, task, pick).value)
  {
  }

  lemma ManagerKeepsSlots(s: State, pick: nat)
    requires Slotted(s) && ManagerMove(s, pick).Some?
    ensures Slotted(ManagerMove(s, pick).value)
  {
  }

  // ---- Tasks.

  /** A worker between taking a task and having run it. */
  predicate Carrying(u: Worker) { u.pc == Broadcast204 || u.pc == CountUp210 || u.pc == Run213 }

  /** What a worker carries is the task of its ticket, and was handed to it. */
  predicate CarriesItsOwn(g: Pool, u: Worker, me: nat) {
    Carrying(u) ==>
      && u.ticket < |g.taken| && g.taken[u.ticket] == me
      && u.ticket < |g.accepted| && u.task == g.accepted[u.ticket]
  }

  predicate Carries(ws: seq<Worker>, w: nat, k: nat) { w < |ws| && Carrying(ws[w]) && ws[w].ticket == k }

  /** Accepted tasks are handed out in order: what has been accepted is what has been
      handed out followed by what the ring holds. */
  ghost predicate Fifo(g: Pool) {
    && g.ring.Valid()
    && |g.taken| <= |g.accepted|
    && g.accepted[|g.taken|..] == g.ring.Contents()
  }

  lemma WorkerFifo(g: Pool, u: Worker, me: nat)
    requires Fifo(g) && WorkerReady(g, u) && CarriesItsOwn(g, u, me) && WorkerStep(g, u, me).Some?
    ensures var (n, v) := WorkerStep(g, u, me).value;
            Fifo(n) && n.accepted == g.accepted && CarriesItsOwn(n, v, me)
  {
    if u.pc == Take198 { TakeKeepsFifo(g, me); }
  }

  lemma TakeKeepsFifo(g: Pool, me: nat)
    requires Fifo(g) && g.ring.size > 0
    ensures Fifo(g.(ring := g.ring.Take(), taken := g.taken + [me]))
    ensures |g.taken| < |g.accepted| && g.accepted[|g.taken|] == g.ring.Front()
  {
    TakeRemovesOldest(g.ring);
    assert g.accepted[|g.taken|..][0] == g.accepted[|g.taken|];
    assert g.accepted[|g.taken|..][1..] == g.accepted[|g.taken| + 1..];
  }

  lemma ProducerFifo(g: Pool, u: Producer, me: nat, task: Task)
    requires Fifo(g) && ProducerReady(g, u) && ProducerStep(g, u, me, task).Some?
    ensures var (n, v) := ProducerStep(g, u, me, task).value;
            && Fifo(n) && n.taken == g.taken && n.ran == g.ran
            && |g.accepted| <= |n.accepted| && n.accepted[..|g.accepted|] == g.accepted
  {
    if u.pc == Put142 { PutAppends(g.ring, u.task); }
  }

  /** Each task handed out either is still carried by the worker it was handed to or
      has been run, and none runs twice. */
  ghost predicate Handed(taken: seq<nat>, ran: seq<nat>, ws: seq<Worker>) {
    && (forall k :: 0 <= k < |taken| ==> k in ran || Carries(ws, taken[k], k))
    && (forall w :: 0 <= w < |ws| && Carrying(ws[w]) ==> ws[w].ticket !in ran)
    && (forall k :: k in ran ==> k < |taken|)
    && (forall i, j :: 0 <= i < j < |ran| ==> ran[i] != ran[j])
  }

  /** Tasks and the workers they went to. */
  ghost predicate Recorded(s: State) {
    && Fifo(s.pool)
    && (forall w :: 0 <= w < |s.workers| ==> CarriesItsOwn(s.pool, s.workers[w], w))
    && Handed(s.pool.taken, s.pool.ran, s.workers)
  }

  /** Line 198: a new ticket for worker w, which carried none. */
  lemma TakeHands(taken: seq<nat>, ran: seq<nat>, ws: seq<Worker>, w: nat, v: Worker)
    requires Handed(taken, ran, ws)
    requires w < |ws| && !Carrying(ws[w]) && Carrying(v) && v.ticket == |taken|
    ensures Handed(taken + [w], ran, ws[w := v])
  {
    forall k | 0 <= k < |taken| + 1
      ensures k in ran || Carries(ws[w := v], (taken + [w])[k], k)
    {
      assert k < |taken| ==> k in ran || Carries(ws, taken[k], k);
    }
  }

  /** Line 213: worker w runs the task it carries. */
  lemma RunRecords(taken: seq<nat>, ran: seq<nat>, ws: seq<Worker>, w: nat, v: Worker)
    requires Handed(taken, ran, ws)
    requires w < |ws| && Carrying(ws[w]) && ws[w].ticket < |taken| && taken[ws[w].ticket] == w && !Carrying(v)
    requires forall x :: 0 <= x < |ws| && Carrying(ws[x]) ==> ws[x].ticket < |taken| && taken[ws[x].ticket] == x
    ensures Handed(taken, ran + [ws[w].ticket], ws[w := v])
  {
    var ran' := ran + [ws[w].ticket];
    forall k | 0 <= k < |taken|
      ensures k in ran' || Carries(ws[w := v], taken[k], k)
    {
      if k in ran { assert k in ran'; } else { assert Carries(ws, taken[k], k); assert ws[w].ticket in ran'; }
    }
  }

  /** Any other move of a worker. */
  lemma MoveKeepsHanded(taken: seq<nat>, ran: seq<nat>, ws: seq<Worker>, w: nat, v: Worker)
    requires Handed(taken, ran, ws)
    requires w < |ws| && (Carrying(v) <==> Carrying(ws[w])) && v.ticket == ws[w].ticket
    ensures Handed(taken, ran, ws[w := v])
  {
    forall k | 0 <= k < |taken|
      ensures k in ran || Carries(ws[w := v], taken[k], k)
    {
      assert k in ran || Carries(ws, taken[k], k);
    }
  }

  lemma AddKeepsHanded(taken: seq<nat>, ran: seq<nat>, ws: seq<Worker>, v: Worker)
    requires Handed(taken, ran, ws) && !Carrying(v)
    ensures Handed(taken, ran, ws + [v])
  {
    forall k | 0 <= k < |taken|
      ensures k in ran || Carries(ws + [v], taken[k], k)
    {
      assert k in ran || Carries(ws, taken[k], k);
    }
  }

  lemma WorkerHistory(g: Pool, u: Worker, me: nat)
    requires WorkerStep(g, u, me).Some?
    ensures var (n, v) := WorkerStep(g, u, me).value;
            && n.taken == (if u.pc == Take198 then g.taken + [me] else g.taken)
            && n.ran == (if u.pc == Run213 then g.ran + [u.ticket] else g.ran)
            && v.ticket == (if u.pc == Take198 then |g.taken| else u.ticket)
            && (Carrying(v) <==> u.pc == Take198 || (Carrying(u) && u.pc != Run213))
  {
  }

  lemma WorkerKeepsHanded(g: Pool, ws: seq<Worker>, w: nat)
    requires w < |ws| && WorkerStep(g, ws[w], w).Some?
    requires Handed(g.taken, g.ran, ws)
    requires forall x :: 0 <= x < |ws| ==> CarriesItsOwn(g, ws[x], x)
    ensures var (n, v) := WorkerStep(g, ws[w], w).value; Handed(n.taken, n.ran, ws[w := v])
  {
    var v := WorkerStep(g, ws[w], w).value.1;
    WorkerHistory(g, ws[w], w);
    assert CarriesItsOwn(g, ws[w], w);
    if ws[w].pc == Take198 {
      TakeHands(g.taken, g.ran, ws, w, v);
    } else if ws[w].pc == Run213 {
      RunRecords(g.taken, g.ran, ws, w, v);
    } else {
      MoveKeepsHanded(g.taken, g.ran, ws, w, v);
    }
  }

  lemma WorkerKeepsRecord(s: State, w: nat)
    requires Queued(s) && Recorded(s) && WorkerMove(s, w).Some?
    ensures Recorded(WorkerMove(s, w).value)
  {
    WorkerFifo(s.pool, s.workers[w], w);
    WorkerHistory(s.pool, s.workers[w], w);
    WorkerKeepsHanded(s.pool, s.workers, w);
  }

  lemma ProducerKeepsRecord(s: State, p: nat, task: Task, pick: nat)
    requires Queued(s) && Recorded(s) && ProducerMove(s, p, task, pick).Some?
    ensures Recorded(ProducerMove(s, p, task, pick).value)
  {
    ProducerFifo(s.pool, s.producers[p], p, task);
    if s.producers[p].pc == Signal154 { SignalKeepsRecord(s.pool, s.workers, pick); }
  }

  lemma SignalKeepsRecord(g: Pool, ws: seq<Worker>, pick: nat)
    requires forall w :: 0 <= w < |ws| ==> CarriesItsOwn(g, ws[w], w)
    requires Handed(g.taken, g.ran, ws) && Signal(ws, pick).Some?
    ensures var n := Signal(ws, pick).value;
            (forall w :: 0 <= w < |n| ==> CarriesItsOwn(g, n[w], w)) && Handed(g.taken, g.ran, n)
  {
    if pick < |ws| && ws[pick].pc == Asleep174 {
      MoveKeepsHanded(g.taken, g.ran, ws, pick, ws[pick].(pc := Woken174));
    }
  }

  lemma ManagerHistory(g: Pool, m: Manager)
    requires ManagerStep(g, m).Some?
    ensures var n := ManagerStep(g, m).value.0;
            n.ring == g.ring && n.accepted == g.accepted && n.taken == g.taken && n.ran == g.ran
  {
  }

  lemma ManagerKeepsRecord(s: State, pick: nat)
    requires Recorded(s) && ManagerMove(s, pick).Some?
    ensures Recorded(ManagerMove(s, pick).value)
  {
    AddKeepsHanded(s.pool.taken, s.pool.ran, s.workers, Worker(Lock169, Task(0, 0), 0, s.manager.i, false));
    if Signal(s.workers, pick).Some? { SignalKeepsRecord(s.pool, s.workers, pick); }
    if ManagerStep(s.pool, s.manager).Some? { ManagerHistory(s.pool, s.manager); }
  }

  // ---- Wake-ups.

  /** Some worker is between taking a task and broadcasting queue_not_full. */
  ghost predicate Announcing(ws: seq<Worker>) { exists w :: 0 <= w < |ws| && ws[w].pc == Broadcast204 }

  /** A producer sleeps on queue_not_full only while the queue is full. */
  ghost predicate ProducersServed(s: State) {
    forall p :: 0 <= p < |s.producers| && s.producers[p].pc == Asleep135 ==>
      s.pool.ring.size == |s.pool.ring.slots| || Announcing(s.workers)
  }

  lemma WorkerServesProducers(s: State, w: nat)
    requires Queued(s) && ProducersServed(s) && WorkerMove(s, w).Some?
    ensures ProducersServed(WorkerMove(s, w).value)
  {
    WorkerQueue(s.pool, s.workers[w], w);
    var n := WorkerMove(s, w).value;
    if s.workers[w].pc == Take198 {
      assert n.workers[w].pc == Broadcast204;
    } else if s.workers[w].pc != Broadcast204 && Announcing(s.workers) {
      var x :| 0 <= x < |s.workers| && s.workers[x].pc == Broadcast204;
      assert n.workers[x].pc == Broadcast204;
    }
  }

  lemma ProducerServesProducers(s: State, p: nat, task: Task, pick: nat)
    requires Locked(s) && Queued(s) && ProducersServed(s) && ProducerMove(s, p, task, pick).Some?
    ensures ProducersServed(ProducerMove(s, p, task, pick).value)
  {
    ProducerQueue(s.pool, s.producers[p], p, task);
    var n := ProducerMove(s, p, task, pick).value;
    if Announcing(s.workers) {
      var x :| 0 <= x < |s.workers| && s.workers[x].pc == Broadcast204;
      assert n.workers[x].pc == Broadcast204;
    }
  }

  lemma ManagerServesProducers(s: State, pick: nat)
    requires ProducersServed(s) && ManagerMove(s, pick).Some?
    ensures ProducersServed(ManagerMove(s, pick).value)
  {
    if ManagerStep(s.pool, s.manager).Some? { ManagerQueue(s.pool, s.manager); }
    var n := ManagerMove(s, pick).value;
    if Announcing(s.workers) {
      var x :| 0 <= x < |s.workers| && s.workers[x].pc == Broadcast204;
      assert n.workers[x].pc == Broadcast204;
    }
  }

  /** 1 while a producer has put a task and not yet signalled. */
  ghost function Pending(ps: seq<Producer>): nat {
    if exists p :: 0 <= p < |ps| && ps[p].pc == Signal154 then 1 else 0
  }

  /** Signals the manager still has to send after an order to shrink (lines 271-275). */
  function Due(m: Manager): nat {
    if m.pc == Signal274 && m.i < DEFAULT_THREAD_VARY then DEFAULT_THREAD_VARY - m.i else 0
  }

  /** Workers that will look at the queue, and signals that will wake one. */
  ghost function Cover(s: State): nat { Num(s.workers, Awake) + Pending(s.producers) + Due(s.manager) }

  /** While some worker sleeps, every queued task has an awake worker or a signal on its way. */
  ghost predicate Covered(s: State) { Num(s.workers, Sleeping) > 0 ==> s.pool.ring.size <= Cover(s) }

  /** A task is queued, no worker is awake and no signal is on its way.  Only another add,
      another pass of the manager or a wake-up for no reason can still help. */
  ghost predicate Deserted(s: State) { !s.pool.shutdown && s.pool.ring.size > 0 && Cover(s) == 0 }

  /** The same while there is a worker that could be woken. */
  ghost predicate Stranded(s: State) { Deserted(s) && Num(s.workers, Sleeping) > 0 }

  /** Worker w is about to leave through line 185. */
  predicate Leaves(s: State, w: nat) {
    w < |s.workers| && s.workers[w].pc == LiveTest180 && s.pool.live > s.pool.minThr
  }

  /** Before shutdown, and as long as the manager has never shrunk the pool. */
  ghost predicate WorkersServed(s: State) {
    NobodyLeaves(s) && (!s.pool.shrunk && !s.pool.shutdown ==> Covered(s))
  }

  ghost predicate NobodyLeaves(s: State) {
    && (!s.pool.shrunk ==> s.pool.waitExit <= 0 && s.manager.pc != Signal274)
    && (!s.pool.shrunk ==>
          forall w :: 0 <= w < |s.workers| ==> s.workers[w].pc != LiveTest180 && s.workers[w].pc != Retired)
    && (!s.pool.shutdown ==> forall w :: 0 <= w < |s.workers| ==> s.workers[w].pc != Stopped)
  }

  /** A worker's move: only leaving through line 185 can uncover a task. */
  lemma WorkerCovers(s: State, w: nat)
    requires Queued(s) && !s.pool.shutdown && Covered(s) && WorkerMove(s, w).Some?
    ensures var n := WorkerMove(s, w).value;
            Covered(n) <==> !(Leaves(s, w) && Num(s.workers, Sleeping) > 0 && s.pool.ring.size == Cover(s))
  {
    var v := WorkerStep(s.pool, s.workers[w], w).value.1;
    WorkerQueue(s.pool, s.workers[w], w);
    NumMoved(s.workers, w, v, Sleeping);
    NumMoved(s.workers, w, v, Awake);
    WakeAllPends(s.producers);
  }

  lemma ProducerCovers(s: State, p: nat, task: Task, pick: nat)
    requires Locked(s) && Queued(s) && Covered(s) && ProducerMove(s, p, task, pick).Some?
    ensures Covered(ProducerMove(s, p, task, pick).value)
  {
    var n := ProducerMove(s, p, task, pick).value;
    assert s.producers[p].pc == Put142 ==> n.producers[p].pc == Signal154;
    ProducerQueue(s.pool, s.producers[p], p, task);
    if s.producers[p].pc == Signal154 { SignalCounts(s.workers, pick); }
    if exists x :: 0 <= x < |s.producers| && s.producers[x].pc == Signal154 {
      var x :| 0 <= x < |s.producers| && s.producers[x].pc == Signal154;
      assert x != p ==> n.producers[x].pc == Signal154;
    }
  }

  lemma ManagerCovers(s: State, pick: nat)
    requires Covered(s) && ManagerMove(s, pick).Some?
    ensures Covered(ManagerMove(s, pick).value)
  {
    var w := Worker(Lock169, Task(0, 0), 0, s.manager.i, false);
    NumAdded(s.workers, w, Sleeping);
    NumAdded(s.workers, w, Awake);
    if Signal(s.workers, pick).Some? { SignalCounts(s.workers, pick); }
    if ManagerStep(s.pool, s.manager).Some? { ManagerQueue(s.pool, s.manager); }
  }

  lemma WakingCovers(s: State, w: nat, v: Worker)
    requires Covered(s) && w < |s.workers|
    requires (s.workers[w].pc == Asleep174 && v.pc == Woken174) || (Left(s.workers[w]) && v.pc == s.workers[w].pc)
    ensures Covered(s.(workers := s.workers[w := v]))
  {
    NumMoved(s.workers, w, v, Sleeping);
    NumMoved(s.workers, w, v, Awake);
  }

  lemma WakeAllPends(ps: seq<Producer>)
    ensures Pending(WakeAll(ps)) == Pending(ps)
  {
    var r := WakeAll(ps);
    if exists p :: 0 <= p < |ps| && ps[p].pc == Signal154 {
      var p :| 0 <= p < |ps| && ps[p].pc == Signal154;
      assert r[p].pc == Signal154;
    }
  }

  /** Before shutdown a move leaves a queued task without an awake worker or a signal
      exactly when it is a worker leaving through line 185 while others sleep, with as
      many tasks queued as there are awake workers and signals on their way. */
  lemma UncoveredExactly(s: State, m: Move)
    requires Locked(s) && Queued(s) && !s.pool.shutdown && Covered(s) && Step(s, m).Some?
    ensures Covered(Step(s, m).value) <==>
            !(m.WorkerMoves? && Leaves(s, m.w) && Num(s.workers, Sleeping) > 0 && s.pool.ring.size == Cover(s))
  {
    match m
    case WorkerMoves(w) => WorkerCovers(s, w);
    case ProducerMoves(p, task, pick) => ProducerCovers(s, p, task, pick);
    case ManagerMoves(pick) => ManagerCovers(s, pick);
    case WorkerWakes(w) => WakingCovers(s, w, Step(s, m).value.workers[w]);
    case WorkerEnds(w) => WakingCovers(s, w, Step(s, m).value.workers[w]);
    case ProducerWakes(p) =>
      var n := Step(s, m).value;
      assert forall x :: 0 <= x < |s.producers| ==>
               (n.producers[x].pc == Signal154 <==> s.producers[x].pc == Signal154);
    case Shutdown =>
  }

  lemma StepServesWorkers(s: State, m: Move)
    requires Locked(s) && Queued(s) && WorkersServed(s) && Step(s, m).Some?
    ensures WorkersServed(Step(s, m).value)
  {
    StepKeepsWorkers(s, m);
    if !s.pool.shrunk && !s.pool.shutdown { UncoveredExactly(s, m); }
  }

  lemma StepKeepsWorkers(s: State, m: Move)
    requires NobodyLeaves(s) && Step(s, m).Some?
    ensures NobodyLeaves(Step(s, m).value)
    ensures !Step(s, m).value.pool.shrunk ==> !s.pool.shrunk
    ensures !Step(s, m).value.pool.shutdown ==> !s.pool.shutdown
  {
    match m
    case WorkerMoves(w) => WorkerKeepsWorkers(s, w);
    case ProducerMoves(p, task, pick) => ProducerKeepsWorkers(s, p, task, pick);
    case ManagerMoves(pick) => ManagerKeepsWorkers(s, pick);
    case _ =>
  }

  lemma WorkerKeepsWorkers(s: State, w: nat)
    requires NobodyLeaves(s) && WorkerMove(s, w).Some?
    ensures var n := WorkerMove(s, w).value;
            NobodyLeaves(n) && n.pool.shrunk == s.pool.shrunk && n.pool.shutdown == s.pool.shutdown
  {
    WorkerExits(s.pool, s.workers[w], w);
  }

  lemma ProducerKeepsWorkers(s: State, p: nat, task: Task, pick: nat)
    requires NobodyLeaves(s) && ProducerMove(s, p, task, pick).Some?
    ensures var n := ProducerMove(s, p, task, pick).value;
            NobodyLeaves(n) && n.pool.shrunk == s.pool.shrunk && n.pool.shutdown == s.pool.shutdown
  {
    ProducerOrders(s.pool, s.producers[p], p, task);
  }

  lemma ManagerKeepsWorkers(s: State, pick: nat)
    requires NobodyLeaves(s) && ManagerMove(s, pick).Some?
    ensures var n := ManagerMove(s, pick).value;
            NobodyLeaves(n) && (s.pool.shrunk ==> n.pool.shrunk) && n.pool.shutdown == s.pool.shutdown
  {
    if ManagerStep(s.pool, s.manager).Some? { ManagerOrders(s.pool, s.manager); }
  }

  /** Without an order from the manager no worker reaches line 180, and without a
      shutdown none reaches line 195. */
  lemma WorkerExits(g: Pool, u: Worker, me: nat)
    requires WorkerStep(g, u, me).Some?
    ensures var (n, v) := WorkerStep(g, u, me).value;
            && n.shrunk == g.shrunk && n.shutdown == g.shutdown && (g.waitExit <= 0 ==> n.waitExit <= 0)
            && (v.pc == LiveTest180 ==> g.waitExit > 0)
            && (v.pc == Retired ==> u.pc == LiveTest180) && (v.pc == Stopped ==> g.shutdown)
  {
  }

  lemma ProducerOrders(g: Pool, u: Producer, me: nat, task: Task)
    requires ProducerStep(g, u, me, task).Some?
    ensures var (n, v) := ProducerStep(g, u, me, task).value;
            n.shrunk == g.shrunk && n.shutdown == g.shutdown && n.waitExit == g.waitExit
  {
  }

  lemma ManagerOrders(g: Pool, m: Manager)
    requires ManagerStep(g, m).Some?
    ensures var n := ManagerStep(g, m).value.0;
            && n.shutdown == g.shutdown && (g.shrunk ==> n.shrunk)
            && (n.shrunk || (n.waitExit == g.waitExit && ManagerStep(g, m).value.1.pc != Signal274))
  {
  }

  // ---- Every run.

  ghost predicate Inv(s: State) {
    Locked(s) && Queued(s) && Sized(s) && Slotted(s) && Recorded(s) && ProducersServed(s) && WorkersServed(s)
  }

  lemma CreateKeepsInv(minThr: nat, maxThr: nat, queueMaxSize: nat, producers: nat)
    requires minThr <= maxThr && queueMaxSize > 0
    ensures Inv(Create(minThr, maxThr, queueMaxSize, producers))
  {
    var s := Create(minThr, maxThr, queueMaxSize, producers);
    AllAwake(s.workers);
  }

  lemma {:induction false} AllAwake(ws: seq<Worker>)
    requires forall w :: 0 <= w < |ws| ==> ws[w].pc == Lock169
    ensures Num(ws, Staying) == |ws| && Num(ws, Running) == 0 && Num(ws, Sleeping) == 0
  {
    if ws != [] {
      AllAwake(ws[1..]);
    }
  }

  lemma StepKeepsInv(s: State, m: Move)
    requires Inv(s) && Step(s, m).Some?
    ensures Inv(Step(s, m).value)
  {
    StepKeepsLock(s, m);
    StepServesWorkers(s, m);
    match m
    case WorkerMoves(w) =>
      WorkerKeepsQueue(s, w);
      WorkerKeepsSize(s, w);
      WorkerKeepsSlots(s, w);
      WorkerKeepsRecord(s, w);
      WorkerServesProducers(s, w);
    case ProducerMoves(p, task, pick) =>
      ProducerKeepsQueue(s, p, task, pick);
      ProducerKeepsSize(s, p, task, pick);
      ProducerKeepsSlots(s, p, task, pick);
      ProducerKeepsRecord(s, p, task, pick);
      ProducerServesProducers(s, p, task, pick);
    case ManagerMoves(pick) =>
      ManagerKeepsQueue(s, pick);
      ManagerKeepsSize(s, pick);
      ManagerKeepsSlots(s, pick);
      ManagerKeepsRecord(s, pick);
      ManagerServesProducers(s, pick);
    case WorkerWakes(w) => WorkerChangeKeeps(s, w, Step(s, m).value.workers[w]);
    case WorkerEnds(w) => WorkerChangeKeeps(s, w, Step(s, m).value.workers[w]);
    case ProducerWakes(p) =>
    case Shutdown =>
  }

  /** A spurious wake-up and the end of a thread change one worker and nothing else. */
  predicate Changes(u: Worker, v: Worker) {
    (u.pc == Asleep174 && v == u.(pc := Woken174)) || (Left(u) && v == u.(gone := true))
  }

  lemma WorkerChangeKeeps(s: State, w: nat, v: Worker)
    requires Queued(s) && Sized(s) && Slotted(s) && Recorded(s) && ProducersServed(s)
    requires w < |s.workers| && Changes(s.workers[w], v)
    ensures var n := s.(workers := s.workers[w := v]);
            Queued(n) && Sized(n) && Slotted(n) && Recorded(n) && ProducersServed(n)
  {
    NumMoved(s.workers, w, v, Staying);
    NumMoved(s.workers, w, v, Running);
    ChangeKeepsRecord(s, w, v);
    ChangeServesProducers(s, w, v);
  }

  lemma ChangeKeepsRecord(s: State, w: nat, v: Worker)
    requires Recorded(s) && w < |s.workers| && Changes(s.workers[w], v)
    ensures Recorded(s.(workers := s.workers[w := v]))
  {
    MoveKeepsHanded(s.pool.taken, s.pool.ran, s.workers, w, v);
  }

  lemma ChangeServesProducers(s: State, w: nat, v: Worker)
    requires ProducersServed(s) && w < |s.workers| && Changes(s.workers[w], v)
    ensures ProducersServed(s.(workers := s.workers[w := v]))
  {
    var n := s.(workers := s.workers[w := v]);
    if Announcing(s.workers) {
      var x :| 0 <= x < |s.workers| && s.workers[x].pc == Broadcast204;
      assert n.workers[x].pc == Broadcast204;
    }
  }

  lemma RunKeepsInv(start: State, moves: seq<Move>)
    requires Inv(start)
    ensures Inv(Exec(Step, start, moves))
  {
    forall s, m | Inv(s) && Step(s, m).Some? ensures Inv(Step(s, m).value) { StepKeepsInv(s, m); }
    Invariant(Step, s => Inv(s), start, moves);
  }

  /** What never changes: the configuration; what only grows: the history. */
  ghost predicate Extends(s: State, n: State) {
    && n.pool.minThr == s.pool.minThr && n.pool.maxThr == s.pool.maxThr && |n.pool.ring.slots| == |s.pool.ring.slots|
    && s.pool.accepted <= n.pool.accepted && s.pool.taken <= n.pool.taken && s.pool.ran <= n.pool.ran
  }

  lemma WorkerExtends(s: State, w: nat)
    requires WorkerMove(s, w).Some?
    ensures Extends(s, WorkerMove(s, w).value)
  {
  }

  lemma ProducerExtends(s: State, p: nat, task: Task, pick: nat)
    requires ProducerMove(s, p, task, pick).Some?
    ensures Extends(s, ProducerMove(s, p, task, pick).value)
  {
  }

  lemma ManagerExtends(s: State, pick: nat)
    requires ManagerMove(s, pick).Some?
    ensures Extends(s, ManagerMove(s, pick).value)
  {
  }

  lemma RunExtends(start: State, moves: seq<Move>)
    ensures Extends(start, Exec(Step, start, moves))
  {
    var inv := (s: State) => Extends(start, s);
    forall s, m | inv(s) && Step(s, m).Some? ensures inv(Step(s, m).value) {
      match m
      case WorkerMoves(w) => WorkerExtends(s, w);
      case ProducerMoves(p, task, pick) => ProducerExtends(s, p, task, pick);
      case ManagerMoves(pick) => ManagerExtends(s, pick);
      case _ =>
    }
    Invariant(Step, inv, start, moves);
  }

  // ---- What the pool is for.

  /** The state after a schedule of a new pool. */
  ghost function After(minThr: nat, maxThr: nat, queueMaxSize: nat, producers: nat, moves: seq<Move>): State
    requires minThr <= maxThr && queueMaxSize > 0
  {
    Exec(Step, Create(minThr, maxThr, queueMaxSize, producers), moves)
  }

  lemma AfterKeepsInv(minThr: nat, maxThr: nat, queueMaxSize: nat, producers: nat, moves: seq<Move>)
    requires minThr <= maxThr && queueMaxSize > 0
    ensures var s := After(minThr, maxThr, queueMaxSize, producers, moves);
            Inv(s) && s.pool.minThr == minThr && s.pool.maxThr == maxThr && |s.pool.ring.slots| == queueMaxSize
  {
    CreateKeepsInv(minThr, maxThr, queueMaxSize, producers);
    RunKeepsInv(Create(minThr, maxThr, queueMaxSize, producers), moves);
    RunExtends(Create(minThr, maxThr, queueMaxSize, producers), moves);
  }

  /** Although the manager decides from snapshots that may be stale, the pool size
      stays in bounds, and both counters count what they are meant to. */
  lemma PoolSize(minThr: nat, maxThr: nat, queueMaxSize: nat, producers: nat, moves: seq<Move>)
    requires minThr <= maxThr && queueMaxSize > 0
    ensures var s := After(minThr, maxThr, queueMaxSize, producers, moves);
            && minThr <= s.pool.live <= maxThr
            && s.pool.live == Num(s.workers, Staying)
            && s.pool.busy == Num(s.workers, Running) <= s.pool.live
  {
    AfterKeepsInv(minThr, maxThr, queueMaxSize, producers, moves);
    RunningStay(After(minThr, maxThr, queueMaxSize, producers, moves).workers);
  }

  /** The accepted tasks not yet handed out are the contents of the ring, in order; task
      k went to one worker, which holds exactly that task until it runs it; no task
      runs twice. */
  ghost predicate Conserved(s: State) {
    && s.pool.ring.Valid()
    && |s.pool.accepted| == |s.pool.taken| + s.pool.ring.size
    && s.pool.accepted[|s.pool.taken|..] == s.pool.ring.Contents()
    && (forall k :: 0 <= k < |s.pool.taken| ==> (k !in s.pool.ran <==> Carries(s.workers, s.pool.taken[k], k)))
    && (forall w: nat, k: nat :: Carries(s.workers, w, k) ==> Owns(s, w, k))
    && (forall k :: k in s.pool.ran ==> k < |s.pool.taken|)
    && (forall i, j :: 0 <= i < j < |s.pool.ran| ==> s.pool.ran[i] != s.pool.ran[j])
  }

  /** Task number k was handed to worker w, and it is the task w holds. */
  ghost predicate Owns(s: State, w: nat, k: nat) {
    && w < |s.workers| && k < |s.pool.taken| <= |s.pool.accepted|
    && s.pool.taken[k] == w && s.workers[w].task == s.pool.accepted[k]
  }

  lemma RecordedConserves(s: State)
    requires Recorded(s)
    ensures Conserved(s)
  {
    assert |s.pool.accepted[|s.pool.taken|..]| == |s.pool.ring.Contents()|;
    forall w: nat, k: nat | Carries(s.workers, w, k) ensures Owns(s, w, k) {
      assert CarriesItsOwn(s.pool, s.workers[w], w);
    }
  }

  /** Tasks are conserved, whatever producers, workers and manager do. */
  lemma TasksConserved(minThr: nat, maxThr: nat, queueMaxSize: nat, producers: nat, moves: seq<Move>)
    requires minThr <= maxThr && queueMaxSize > 0
    ensures Conserved(After(minThr, maxThr, queueMaxSize, producers, moves))
  {
    AfterKeepsInv(minThr, maxThr, queueMaxSize, producers, moves);
    RecordedConserves(After(minThr, maxThr, queueMaxSize, producers, moves));
  }

  /** The history is never rewritten: what has been accepted, handed out and run stays so. */
  lemma HistoryOnlyGrows(minThr: nat, maxThr: nat, queueMaxSize: nat, producers: nat, moves: seq<Move>, more: seq<Move>)
    requires minThr <= maxThr && queueMaxSize > 0
    ensures var s, n := After(minThr, maxThr, queueMaxSize, producers, moves).pool,
                        After(minThr, maxThr, queueMaxSize, producers, moves + more).pool;
            s.accepted <= n.accepted && s.taken <= n.taken && s.ran <= n.ran
  {
    ExecConcat(Step, Create(minThr, maxThr, queueMaxSize, producers), moves, more);
    RunExtends(After(minThr, maxThr, queueMaxSize, producers, moves), more);
  }

  /** Threads that exist are in different slots, each in the one recorded for it. */
  lemma ThreadsHaveSlots(minThr: nat, maxThr: nat, queueMaxSize: nat, producers: nat, moves: seq<Move>, v: nat, w: nat)
    requires minThr <= maxThr && queueMaxSize > 0
    requires var s := After(minThr, maxThr, queueMaxSize, producers, moves);
             v < w < |s.workers| && !s.workers[v].gone && !s.workers[w].gone
    ensures var s := After(minThr, maxThr, queueMaxSize, producers, moves);
            && s.workers[v].slot != s.workers[w].slot
            && s.workers[w].slot < |s.threads| == maxThr && s.threads[s.workers[w].slot] == Some(w)
  {
    AfterKeepsInv(minThr, maxThr, queueMaxSize, producers, moves);
    var s := After(minThr, maxThr, queueMaxSize, producers, moves);
    assert InSlot(s.threads, s.workers[v], v) && InSlot(s.threads, s.workers[w], w);
  }

  /** A growth round only takes a slot that no existing thread is in. */
  lemma GrowthSparesThreads(minThr: nat, maxThr: nat, queueMaxSize: nat, producers: nat, moves: seq<Move>,
      pick: nat, w: nat)
    requires minThr <= maxThr && queueMaxSize > 0
    requires var s := After(minThr, maxThr, queueMaxSize, producers, moves);
             w < |s.workers| && !s.workers[w].gone && ManagerMove(s, pick).Some?
    ensures var s := After(minThr, maxThr, queueMaxSize, producers, moves);
            var n := ManagerMove(s, pick).value;
            && s.workers[w].slot < |s.threads| == |n.threads|
            && n.threads[s.workers[w].slot] == s.threads[s.workers[w].slot] == Some(w)
  {
    AfterKeepsInv(minThr, maxThr, queueMaxSize, producers, moves);
    var s := After(minThr, maxThr, queueMaxSize, producers, moves);
    assert InSlot(s.threads, s.workers[w], w);
  }

  /** Whoever holds the lock can go on, so the lock is never held for ever: in
      particular lines 142 and 198 always find room and a task. */
  lemma LockHolderGoesOn(minThr: nat, maxThr: nat, queueMaxSize: nat, producers: nat, moves: seq<Move>)
      returns (m: Move)
    requires minThr <= maxThr && queueMaxSize > 0
    ensures var s := After(minThr, maxThr, queueMaxSize, producers, moves);
            match s.pool.lock
            case None => true
            case Some(TheWorker(w)) => m == WorkerMoves(w) && Step(s, m).Some?
            case Some(TheProducer(p)) => m.ProducerMoves? && m.p == p && Step(s, m).Some?
            case Some(TheManager) => m.ManagerMoves? && Step(s, m).Some?
  {
    AfterKeepsInv(minThr, maxThr, queueMaxSize, producers, moves);
    var s := After(minThr, maxThr, queueMaxSize, producers, moves);
    var pick := ASleeper(s.workers);
    match s.pool.lock {
      case Some(TheWorker(w)) => m := WorkerMoves(w); WorkerGoesOn(s, w);
      case Some(TheProducer(p)) => m := ProducerMoves(p, Task(0, 0), pick); ProducerGoesOn(s, p, pick);
      case Some(TheManager) => m := ManagerMoves(pick);
      case None => m := Shutdown;
    }
  }

  lemma WorkerGoesOn(s: State, w: nat)
    requires Locked(s) && Queued(s) && s.pool.lock == Some(TheWorker(w))
    ensures WorkerMove(s, w).Some?
  {
    assert WorkerReady(s.pool, s.workers[w]);
  }

  lemma ProducerGoesOn(s: State, p: nat, pick: nat)
    requires Locked(s) && Queued(s) && s.pool.lock == Some(TheProducer(p)) && Signal(s.workers, pick).Some?
    ensures ProducerMove(s, p, Task(0, 0), pick).Some?
  {
    assert ProducerReady(s.pool, s.producers[p]);
  }

  /** Someone a signal can wake, if anyone sleeps. */
  lemma {:induction false} ASleeper(ws: seq<Worker>) returns (pick: nat)
    ensures Signal(ws, pick).Some?
  {
    pick := 0;
    if ws != [] && ws[0].pc != Asleep174 {
      var rest := ASleeper(ws[1..]);
      pick := if rest + 1 < |ws| then rest + 1 else 0;
    }
  }
}
