/** The thread pool by what its threads have done: the tasks it accepts are those its callers
    bring, the manager does what its snapshots ask for, and at most ten workers leave on
    one order. */
module ThreadPoolHistory {
  import opened Runs
  import opened TaskQueue
  import opened ThreadPool
  import opened ThreadPoolSafety

  /** A move that went through, with the state it was made in. */
  type Event = (State, Move)

  /** Some producer, this producer, executes the statement at pc. */
  predicate Adds(e: Event, pc: ProducerPC) {
    e.1.ProducerMoves? && e.1.p < |e.0.producers| && e.0.producers[e.1.p].pc == pc
  }

  predicate AddsBy(e: Event, p: nat, pc: ProducerPC) { Adds(e, pc) && e.1.p == p }

  // ---- The tasks of the callers.

  /** The tasks that producer p has brought, one with each call of threadpool_add. */
  function Brought(tr: seq<Event>, p: nat): seq<Task> {
    if tr == [] then []
    else
      var past, e := tr[..|tr| - 1], tr[|tr| - 1];
      Brought(past, p) + if AddsBy(e, p, Lock131) then [e.1.task] else []
  }

  function Latest(ts: seq<Task>): seq<Task> { if ts == [] then [] else [ts[|ts| - 1]] }

  /** The task of the call for each put that has been executed, in order: by anybody, ... */
  function Puts(tr: seq<Event>): seq<Task> {
    if tr == [] then []
    else
      var past, e := tr[..|tr| - 1], tr[|tr| - 1];
      Puts(past) + if Adds(e, Put142) then Latest(Brought(past, e.1.p)) else []
  }

  /** ... and by producer p. */
  function PutsBy(tr: seq<Event>, p: nat): seq<Task> {
    if tr == [] then []
    else
      var past, e := tr[..|tr| - 1], tr[|tr| - 1];
      PutsBy(past, p) + if AddsBy(e, p, Put142) then Latest(Brought(past, p)) else []
  }

  predicate ShutDown(tr: seq<Event>) { exists k :: 0 <= k < |tr| && tr[k].1 == Shutdown }

  lemma CallsNext(tr: seq<Event>, e: Event, p: nat)
    ensures Brought(tr + [e], p) == Brought(tr, p) + if AddsBy(e, p, Lock131) then [e.1.task] else []
    ensures PutsBy(tr + [e], p) == PutsBy(tr, p) + if AddsBy(e, p, Put142) then Latest(Brought(tr, p)) else []
    ensures Puts(tr + [e]) == Puts(tr) + if Adds(e, Put142) then Latest(Brought(tr, e.1.p)) else []
    ensures ShutDown(tr + [e]) <==> ShutDown(tr) || e.1 == Shutdown
  {
    assert (tr + [e])[..|tr|] == tr;
    if ShutDown(tr) {
      var k :| 0 <= k < |tr| && tr[k].1 == Shutdown;
      assert (tr + [e])[k].1 == Shutdown;
    }
    assert (tr + [e])[|tr|] == e;
  }

  /** A producer inside a call holds the task it brought; before a shutdown it has put the
      tasks of all its calls, except that of a call that has not come to that. */
  predicate Serves(u: Producer, brought: seq<Task>, puts: seq<Task>, shutdown: bool) {
    && (u.pc != Lock131 ==> Latest(brought) == [u.task])
    && (!shutdown ==>
          if u.pc == Lock131 || u.pc == Signal154 then puts == brought
          else brought != [] && puts == brought[..|brought| - 1])
  }

  ghost predicate Called(s: State, tr: seq<Event>) {
    && s.pool.accepted == Puts(tr) && (s.pool.shutdown <==> ShutDown(tr))
    && (forall p :: 0 <= p < |s.producers| ==>
          Serves(s.producers[p], Brought(tr, p), PutsBy(tr, p), s.pool.shutdown))
  }

  lemma ProducerServes(g: Pool, u: Producer, me: nat, task: Task, brought: seq<Task>, puts: seq<Task>)
    requires ProducerStep(g, u, me, task).Some? && Serves(u, brought, puts, g.shutdown)
    ensures var (n, v) := ProducerStep(g, u, me, task).value;
            && n.shutdown == g.shutdown
            && n.accepted == g.accepted + (if u.pc == Put142 then Latest(brought) else [])
            && Serves(v, brought + (if u.pc == Lock131 then [task] else []),
                      puts + (if u.pc == Put142 then Latest(brought) else []), g.shutdown)
  {
    if u.pc == Lock131 {
      assert (brought + [task])[..|brought|] == brought;
    } else if u.pc == Put142 {
      assert puts + Latest(brought) == if g.shutdown then puts + Latest(brought) else brought;
    }
  }

  lemma ProducerIsCalled(s: State, tr: seq<Event>, m: Move)
    requires Called(s, tr) && m.ProducerMoves? && Step(s, m).Some?
    ensures Called(Step(s, m).value, tr + [(s, m)])
  {
    ProducerServes(s.pool, s.producers[m.p], m.p, m.task, Brought(tr, m.p), PutsBy(tr, m.p));
    forall p: nat | p < |s.producers|
      ensures Serves(Step(s, m).value.producers[p], Brought(tr + [(s, m)], p), PutsBy(tr + [(s, m)], p),
                     s.pool.shutdown)
    {
      CallsNext(tr, (s, m), p);
    }
    CallsNext(tr, (s, m), m.p);
  }

  lemma OtherIsCalled(s: State, tr: seq<Event>, m: Move)
    requires Called(s, tr) && !m.ProducerMoves? && Step(s, m).Some?
    ensures Called(Step(s, m).value, tr + [(s, m)])
  {
    CallsNext(tr, (s, m), 0);
    OthersLeaveCalls(s, m);
    var n := Step(s, m).value;
    forall p: nat | p < |s.producers|
      ensures Serves(n.producers[p], Brought(tr + [(s, m)], p), PutsBy(tr + [(s, m)], p), n.pool.shutdown)
    {
      OtherServes(s.producers[p], n.producers[p], tr, (s, m), p, s.pool.shutdown, n.pool.shutdown);
    }
  }

  lemma OtherServes(u: Producer, v: Producer, tr: seq<Event>, e: Event, p: nat, before: bool, after: bool)
    requires Serves(u, Brought(tr, p), PutsBy(tr, p), before) && Same(u, v) && !e.1.ProducerMoves? && (before ==> after)
    ensures Serves(v, Brought(tr + [e], p), PutsBy(tr + [e], p), after)
  {
    CallsNext(tr, e, p);
  }

  /** A move of somebody else changes nothing of a call but its sleep. */
  predicate Same(u: Producer, v: Producer) { u == v || (u.pc == Asleep135 && v == u.(pc := Woken135)) }

  lemma OthersLeaveCalls(s: State, m: Move)
    requires !m.ProducerMoves? && Step(s, m).Some?
    ensures var n := Step(s, m).value;
            && n.pool.accepted == s.pool.accepted && n.pool.shutdown == (m == Shutdown || s.pool.shutdown)
            && |n.producers| == |s.producers|
            && forall p :: 0 <= p < |s.producers| ==> Same(s.producers[p], n.producers[p])
  {
    match m
    case WorkerMoves(w) => WorkerLeavesCalls(s, w);
    case ManagerMoves(pick) => ManagerLeavesCalls(s, pick);
    case _ =>
  }

  lemma WorkerLeavesCalls(s: State, w: nat)
    requires WorkerMove(s, w).Some?
    ensures var n := WorkerMove(s, w).value;
            && n.pool.accepted == s.pool.accepted && n.pool.shutdown == s.pool.shutdown
            && |n.producers| == |s.producers|
            && forall p :: 0 <= p < |s.producers| ==> Same(s.producers[p], n.producers[p])
  {
  }

  lemma ManagerLeavesCalls(s: State, pick: nat)
    requires ManagerMove(s, pick).Some?
    ensures var n := ManagerMove(s, pick).value;
            n.pool.accepted == s.pool.accepted && n.pool.shutdown == s.pool.shutdown && n.producers == s.producers
  {
  }

  lemma StepIsCalled(s: State, tr: seq<Event>, m: Move)
    requires Called(s, tr) && Step(s, m).Some?
    ensures Called(Step(s, m).value, tr + [(s, m)])
  {
    if m.ProducerMoves? { ProducerIsCalled(s, tr, m); } else { OtherIsCalled(s, tr, m); }
  }

  /** What a schedule of a new pool has done. */
  ghost function Done(minThr: nat, maxThr: nat, queueMaxSize: nat, producers: nat, moves: seq<Move>): seq<Event>
    requires minThr <= maxThr && queueMaxSize > 0
  {
    Trace(Step, Create(minThr, maxThr, queueMaxSize, producers), moves)
  }

  /** In every run the accepted tasks are those the callers brought, in the order of the
      puts: before a shutdown each once, and of each caller all, in the order of its calls,
      but for one that it is still adding; and the pool conserves them. */
  lemma TasksAreTheCallers(minThr: nat, maxThr: nat, queueMaxSize: nat, producers: nat, moves: seq<Move>)
    requires minThr <= maxThr && queueMaxSize > 0
    ensures var s, tr := After(minThr, maxThr, queueMaxSize, producers, moves),
                         Done(minThr, maxThr, queueMaxSize, producers, moves);
            Called(s, tr) && Conserved(s)
  {
    TasksConserved(minThr, maxThr, queueMaxSize, producers, moves);
    forall s, tr, m | Called(s, tr) && Step(s, m).Some? ensures Called(Step(s, m).value, tr + [(s, m)]) {
      StepIsCalled(s, tr, m);
    }
    var start := Create(minThr, maxThr, queueMaxSize, producers);
    var tr := Done(minThr, maxThr, queueMaxSize, producers, moves);
    Traced(Step, (s, tr) => Called(s, tr), start, [], moves);
    assert [] + tr == tr;
  }

  // ---- Orders to leave.

  /** How many tests of line 180 workers have made since the last order of line 268. */
  function Tests(tr: seq<Event>): Option<nat> {
    if tr == [] then None
    else
      var past, s, m := Tests(tr[..|tr| - 1]), tr[|tr| - 1].0, tr[|tr| - 1].1;
      if m.ManagerMoves? && s.manager.pc == Order268 then Some(0)
      else if past.Some? && m.WorkerMoves? && m.w < |s.workers| && s.workers[m.w].pc == LiveTest180
      then Some(past.value + 1) else past
  }

  /** 1 while a worker, which then has the lock, is about to make that test. */
  function Testing(s: State): nat {
    match s.pool.lock
    case Some(TheWorker(w)) => if w < |s.workers| && s.workers[w].pc == LiveTest180 then 1 else 0
    case _ => 0
  }

  /** Each order lets DEFAULT_THREAD_VARY workers make the test. */
  ghost predicate Ordered(s: State, tr: seq<Event>) {
    match Tests(tr)
    case None => s.pool.waitExit == 0 && !s.pool.shrunk && Testing(s) == 0
    case Some(k) => s.pool.waitExit >= 0 && s.pool.waitExit + k + Testing(s) == DEFAULT_THREAD_VARY && s.pool.shrunk
  }

  lemma TestsNext(tr: seq<Event>, s: State, m: Move)
    ensures Tests(tr + [(s, m)]) ==
            var past := Tests(tr);
            if m.ManagerMoves? && s.manager.pc == Order268 then Some(0)
            else if past.Some? && m.WorkerMoves? && m.w < |s.workers| && s.workers[m.w].pc == LiveTest180
            then Some(past.value + 1) else past
  {
    assert (tr + [(s, m)])[..|tr|] == tr;
  }

  lemma WorkerTests(g: Pool, u: Worker, me: nat)
    requires WorkerStep(g, u, me).Some?
    ensures var (n, v) := WorkerStep(g, u, me).value;
            && n.shrunk == g.shrunk && (g.waitExit >= 0 ==> n.waitExit >= 0)
            && (u.pc == LiveTest180 ==> v.pc != LiveTest180)
            && n.waitExit == (if v.pc == LiveTest180 then g.waitExit - 1 else g.waitExit)
            && (v.pc == LiveTest180 ==> g.waitExit > 0)
  {
  }

  function At180(u: Worker): nat { if u.pc == LiveTest180 then 1 else 0 }

  lemma TestingMoves(s: State, w: nat)
    requires Locked(s) && WorkerMove(s, w).Some?
    ensures var n := WorkerMove(s, w).value;
            Testing(n) - Testing(s) == At180(n.workers[w]) - At180(s.workers[w])
  {
    WorkerLock(s.pool, s.workers[w], w);
    var n := WorkerMove(s, w).value;
    if s.pool.lock == None || s.pool.lock == Some(TheWorker(w)) {
      assert Testing(s) == At180(s.workers[w]);
    } else {
      assert n.pool.lock == s.pool.lock;
    }
  }

  lemma WorkerIsOrdered(s: State, tr: seq<Event>, w: nat)
    requires Locked(s) && Ordered(s, tr) && WorkerMove(s, w).Some?
    ensures Ordered(WorkerMove(s, w).value, tr + [(s, WorkerMoves(w))])
  {
    TestsNext(tr, s, WorkerMoves(w));
    WorkerTests(s.pool, s.workers[w], w);
    TestingMoves(s, w);
  }

  lemma ProducerIsOrdered(s: State, tr: seq<Event>, m: Move)
    requires Locked(s) && Ordered(s, tr) && m.ProducerMoves? && Step(s, m).Some?
    ensures Ordered(Step(s, m).value, tr + [(s, m)])
  {
    TestsNext(tr, s, m);
    ProducerLock(s.pool, s.producers[m.p], m.p, m.task);
    ProducerOrders(s.pool, s.producers[m.p], m.p, m.task);
  }

  lemma ManagerTests(g: Pool, m: Manager)
    requires ManagerStep(g, m).Some?
    ensures var n := ManagerStep(g, m).value.0;
            if m.pc == Order268 then n.waitExit == DEFAULT_THREAD_VARY && n.shrunk
            else n.waitExit == g.waitExit && n.shrunk == g.shrunk
  {
  }

  /** A statement of the manager leaves the test of line 180 to nobody. */
  lemma ManagerTestsNothing(s: State, pick: nat)
    requires Locked(s) && ManagerMove(s, pick).Some?
    ensures Testing(ManagerMove(s, pick).value) == Testing(s) && (s.manager.pc == Order268 ==> Testing(s) == 0)
  {
    var n := ManagerMove(s, pick).value;
    ManagerKeepsLock(s, pick);
    if ManagerStep(s.pool, s.manager).Some? { ManagerLock(s.pool, s.manager); }
    assert Hands(s.pool.lock, n.pool.lock, TheManager);
    if s.pool.lock.Some? && s.pool.lock.value.TheWorker? {
      var w := s.pool.lock.value.w;
      assert WorkerHolds(s.workers[w].pc) && n.workers[w] == s.workers[w];
    }
  }

  lemma ManagerIsOrdered(s: State, tr: seq<Event>, m: Move)
    requires Locked(s) && Ordered(s, tr) && m.ManagerMoves? && Step(s, m).Some?
    ensures Ordered(Step(s, m).value, tr + [(s, m)])
  {
    TestsNext(tr, s, m);
    ManagerTestsNothing(s, m.pick);
    if ManagerStep(s.pool, s.manager).Some? { ManagerTests(s.pool, s.manager); }
  }

  lemma StepIsOrdered(s: State, tr: seq<Event>, m: Move)
    requires Locked(s) && Ordered(s, tr) && Step(s, m).Some?
    ensures Ordered(Step(s, m).value, tr + [(s, m)])
  {
    match m
    case WorkerMoves(w) => WorkerIsOrdered(s, tr, w);
    case ProducerMoves(_, _, _) => ProducerIsOrdered(s, tr, m);
    case ManagerMoves(_) => ManagerIsOrdered(s, tr, m);
    case _ => TestsNext(tr, s, m);
  }

  // ---- What the manager does in a pass.

  /** The manager's latest pass: what it saw, the rounds of growth and how many workers
      there were when it began to grow, whether it ordered workers to leave, and its signals. */
  datatype Pass = Pass(
    queued: nat, live: int, busy: int, grew: bool, before: nat, rounds: nat, ordered: bool, signals: nat)

  function ThePass(tr: seq<Event>): Pass {
    if tr == [] then Pass(0, 0, 0, false, 0, 0, false, 0)
    else
      var t, s := ThePass(tr[..|tr| - 1]), tr[|tr| - 1].0;
      if tr[|tr| - 1].1.ManagerMoves? then Continued(t, s) else t
  }

  /** The pass after the manager's statement in s. */
  function Continued(t: Pass, s: State): Pass {
    match s.manager.pc
    case Snapshot236 => Pass(s.pool.ring.size, s.pool.live, 0, false, 0, 0, false, 0)
    case Snapshot241 => t.(busy := s.pool.busy)
    case Lock247 => t.(grew := true, before := |s.workers|)
    case Grow250 => t.(rounds := t.rounds + 1)
    case Order268 => t.(ordered := true)
    case Signal274 => t.(signals := t.signals + 1)
    case _ => t
  }

  /** Lines 245 and 263, of the numbers that the pass has seen. */
  predicate ShouldGrow(t: Pass, maxThr: nat) { t.queued >= MIN_WAIT_TASK_NUM && t.live < maxThr }

  predicate ShouldShrink(t: Pass, minThr: nat) { t.busy * 2 < t.live && t.live > minThr }

  /** How far the manager is in its pass. */
  predicate Managed(m: Manager, t: Pass, workers: nat, minThr: nat, maxThr: nat) {
    && (m.pc == Snapshot241 || m.pc == Decide245 ==>
          m.queueSize == t.queued && m.live == t.live && !t.grew && !t.ordered && t.rounds == t.signals == 0)
    && (m.pc == Decide245 || m.pc == Lock247 || m.pc == Grow250 || m.pc == Decide263 ==>
          m.live == t.live && m.busy == t.busy && !t.ordered && t.signals == 0)
    && (m.pc == Lock247 || m.pc == Grow250 ==>
          ShouldGrow(t, maxThr) && (t.grew <==> m.pc == Grow250) && (!t.grew ==> t.rounds == 0))
    && (m.pc == Grow250 ==> t.rounds == m.i <= maxThr && workers == t.before + m.add <= t.before + DEFAULT_THREAD_VARY)
    && (m.pc == Decide263 || m.pc == Lock267 || m.pc == Order268 || m.pc == Signal274
        || m.pc == Loop232 || m.pc == Lock235 || m.pc == Snapshot236 || m.pc == Finished ==>
          (t.grew <==> ShouldGrow(t, maxThr)) && (t.grew ==> t.before <= workers <= t.before + DEFAULT_THREAD_VARY))
    && (m.pc == Lock267 || m.pc == Order268 ==> ShouldShrink(t, minThr) && !t.ordered && t.signals == 0)
    && (m.pc == Signal274 ==> ShouldShrink(t, minThr) && t.ordered && t.signals == m.i <= DEFAULT_THREAD_VARY)
    && (m.pc == Loop232 || m.pc == Lock235 || m.pc == Snapshot236 || m.pc == Finished ==>
          (t.ordered <==> ShouldShrink(t, minThr))
          && t.signals == if t.ordered then DEFAULT_THREAD_VARY + 1 else 0)  // the last test of line 271 ends the loop
  }

  ghost predicate Decided(s: State, tr: seq<Event>) {
    Managed(s.manager, ThePass(tr), |s.workers|, s.pool.minThr, s.pool.maxThr)
  }

  lemma PassNext(tr: seq<Event>, s: State, m: Move)
    ensures ThePass(tr + [(s, m)]) == if m.ManagerMoves? then Continued(ThePass(tr), s) else ThePass(tr)
  {
    assert (tr + [(s, m)])[..|tr|] == tr;
  }

  /** The statements up to a growth, ... */
  predicate Early(pc: ManagerPC) {
    pc == Loop232 || pc == Lock235 || pc == Snapshot236 || pc == Snapshot241 || pc == Decide245 || pc == Lock247
  }

  lemma EarlyIsDecided(s: State, t: Pass)
    requires ManagerStep(s.pool, s.manager).Some? && Early(s.manager.pc)
    requires Managed(s.manager, t, |s.workers|, s.pool.minThr, s.pool.maxThr)
    ensures var (g, n) := ManagerStep(s.pool, s.manager).value;
            Managed(n, Continued(t, s), |s.workers|, g.minThr, g.maxThr)
  {
  }

  /** ... and those after one. */
  lemma LateIsDecided(s: State, t: Pass)
    requires ManagerStep(s.pool, s.manager).Some? && !Early(s.manager.pc)
    requires s.manager.pc == Signal274 ==> s.manager.i >= DEFAULT_THREAD_VARY
    requires Managed(s.manager, t, |s.workers|, s.pool.minThr, s.pool.maxThr)
    ensures var (g, n) := ManagerStep(s.pool, s.manager).value;
            Managed(n, Continued(t, s), |s.workers|, g.minThr, g.maxThr)
  {
  }

  lemma RoundIsDecided(s: State, t: Pass)
    requires s.manager.pc == Grow250 && GrowGoesOn(s.pool, s.manager) && s.manager.i < |s.threads|
    requires Managed(s.manager, t, |s.workers|, s.pool.minThr, s.pool.maxThr)
    ensures var n := GrowSlot(s);
            Managed(n.manager, Continued(t, s), |n.workers|, n.pool.minThr, n.pool.maxThr)
  {
  }

  lemma ManagerIsDecided(s: State, t: Pass, pick: nat)
    requires ManagerMove(s, pick).Some? && Managed(s.manager, t, |s.workers|, s.pool.minThr, s.pool.maxThr)
    ensures var n := ManagerMove(s, pick).value;
            Managed(n.manager, Continued(t, s), |n.workers|, n.pool.minThr, n.pool.maxThr)
  {
    if s.manager.pc == Grow250 && GrowGoesOn(s.pool, s.manager) && s.manager.i < |s.threads| {
      RoundIsDecided(s, t);
    } else if s.manager.pc != Signal274 || s.manager.i >= DEFAULT_THREAD_VARY {
      if Early(s.manager.pc) { EarlyIsDecided(s, t); } else { LateIsDecided(s, t); }
    }
  }

  lemma OthersLeaveManager(s: State, m: Move)
    requires !m.ManagerMoves? && Step(s, m).Some?
    ensures var n := Step(s, m).value;
            n.manager == s.manager && |n.workers| == |s.workers|
            && n.pool.minThr == s.pool.minThr && n.pool.maxThr == s.pool.maxThr
  {
    match m
    case WorkerMoves(w) => WorkerExtends(s, w);
    case ProducerMoves(p, task, pick) => ProducerExtends(s, p, task, pick);
    case _ =>
  }

  lemma StepIsDecided(s: State, tr: seq<Event>, m: Move)
    requires Decided(s, tr) && Step(s, m).Some?
    ensures Decided(Step(s, m).value, tr + [(s, m)])
  {
    PassNext(tr, s, m);
    if m.ManagerMoves? { ManagerIsDecided(s, ThePass(tr), m.pick); } else { OthersLeaveManager(s, m); }
  }

  /** The manager leaves its loop only after a shutdown. */
  predicate Stops(s: State) { s.manager.pc == Finished ==> s.pool.shutdown }

  lemma StepStops(s: State, m: Move)
    requires Stops(s) && Step(s, m).Some?
    ensures Stops(Step(s, m).value)
  {
    if m.ManagerMoves? {
      if ManagerStep(s.pool, s.manager).Some? { ManagerQueue(s.pool, s.manager); }
    } else if m.ProducerMoves? {
      ProducerOrders(s.pool, s.producers[m.p], m.p, m.task);
    } else {
      OthersLeaveManager(s, m);
      OthersLeaveCalls(s, m);
    }
  }

  ghost predicate Accounted(s: State, tr: seq<Event>) { Inv(s) && Ordered(s, tr) && Decided(s, tr) && Stops(s) }

  lemma RunIsAccounted(minThr: nat, maxThr: nat, queueMaxSize: nat, producers: nat, moves: seq<Move>)
    requires minThr <= maxThr && queueMaxSize > 0
    ensures Accounted(After(minThr, maxThr, queueMaxSize, producers, moves),
                      Done(minThr, maxThr, queueMaxSize, producers, moves))
  {
    var start := Create(minThr, maxThr, queueMaxSize, producers);
    var tr := Done(minThr, maxThr, queueMaxSize, producers, moves);
    CreateKeepsInv(minThr, maxThr, queueMaxSize, producers);
    forall s, tr, m | Accounted(s, tr) && Step(s, m).Some? ensures Accounted(Step(s, m).value, tr + [(s, m)]) {
      StepKeepsInv(s, m);
      StepIsOrdered(s, tr, m);
      StepIsDecided(s, tr, m);
      StepStops(s, m);
    }
    Traced(Step, (s, tr) => Accounted(s, tr), start, [], moves);
    assert [] + tr == tr;
  }

  /** In every run at most ten workers make the test of line 180 on one order: a woken one
      goes on to it exactly while fewer have, and then leaves exactly if more than the
      minimum of workers are there. */
  lemma TenLeaveOnAnOrder(minThr: nat, maxThr: nat, queueMaxSize: nat, producers: nat, moves: seq<Move>, w: nat)
    requires minThr <= maxThr && queueMaxSize > 0
    ensures var s, tests := After(minThr, maxThr, queueMaxSize, producers, moves),
                            Tests(Done(minThr, maxThr, queueMaxSize, producers, moves));
            && (tests.Some? ==> tests.value <= DEFAULT_THREAD_VARY)
            && (w < |s.workers| && s.workers[w].pc == ExitTest176 ==>
                  WorkerMove(s, w).Some? && (WorkerMove(s, w).value.workers[w].pc == LiveTest180 <==>
                                             tests.Some? && tests.value < DEFAULT_THREAD_VARY))
            && (w < |s.workers| && s.workers[w].pc == LiveTest180 ==>
                  WorkerMove(s, w).Some? && (WorkerMove(s, w).value.workers[w].pc == Retired <==>
                                             Num(s.workers, Staying) > minThr))
  {
    RunIsAccounted(minThr, maxThr, queueMaxSize, producers, moves);
    AfterKeepsInv(minThr, maxThr, queueMaxSize, producers, moves);
    var s := After(minThr, maxThr, queueMaxSize, producers, moves);
    assert w < |s.workers| && s.workers[w].pc == ExitTest176 ==> Testing(s) == 0;
  }

  /** In every run the manager adds workers in a pass exactly if it saw ten tasks queued and
      less than the maximum of workers, at most ten, and orders workers to leave exactly if
      it saw less than half of them busy and more than the minimum; then it signals ten times. */
  lemma PassesFollowSnapshots(minThr: nat, maxThr: nat, queueMaxSize: nat, producers: nat, moves: seq<Move>)
    requires minThr <= maxThr && queueMaxSize > 0
    ensures Decided(After(minThr, maxThr, queueMaxSize, producers, moves),
                    Done(minThr, maxThr, queueMaxSize, producers, moves))
  {
    RunIsAccounted(minThr, maxThr, queueMaxSize, producers, moves);
  }

  /** Growth ends exactly when ten workers are added, the pool is full or every slot has been
      looked at; until then each round adds a worker in the next slot exactly if no existing
      thread is in that. */
  lemma GrowthEndsExactly(minThr: nat, maxThr: nat, queueMaxSize: nat, producers: nat, moves: seq<Move>, pick: nat)
    requires minThr <= maxThr && queueMaxSize > 0
    ensures var s, t := After(minThr, maxThr, queueMaxSize, producers, moves),
                        ThePass(Done(minThr, maxThr, queueMaxSize, producers, moves));
            s.manager.pc == Grow250 ==>
            && ManagerMove(s, pick).Some?
            && var n := ManagerMove(s, pick).value;
            && (n.manager.pc == Decide263 <==>
                  (|s.workers| == t.before + DEFAULT_THREAD_VARY || Num(s.workers, Staying) == maxThr
                   || t.rounds == maxThr))
            && (n.manager.pc != Decide263 ==>
                  if Taken(s.workers, t.rounds) then n.workers == s.workers
                  else n.workers == s.workers + [Worker(Lock169, Task(0, 0), 0, t.rounds, false)])
  {
    RunIsAccounted(minThr, maxThr, queueMaxSize, producers, moves);
    AfterKeepsInv(minThr, maxThr, queueMaxSize, producers, moves);
    var s := After(minThr, maxThr, queueMaxSize, producers, moves);
    if s.manager.pc == Grow250 {
      var t := ThePass(Done(minThr, maxThr, queueMaxSize, producers, moves));
      GrowsOn(s, t, pick);
      if t.rounds < maxThr { FreeExactly(s, t.rounds); }
    }
  }

  /** An existing thread is in the slot. */
  ghost predicate Taken(ws: seq<Worker>, slot: nat) {
    exists w :: 0 <= w < |ws| && !ws[w].gone && ws[w].slot == slot
  }

  lemma FreeExactly(s: State, slot: nat)
    requires Slotted(s) && slot < |s.threads|
    ensures Free(s.threads[slot], s.workers) <==> !Taken(s.workers, slot)
  {
    if Taken(s.workers, slot) {
      var w :| 0 <= w < |s.workers| && !s.workers[w].gone && s.workers[w].slot == slot;
      assert InSlot(s.threads, s.workers[w], w);
    }
  }

  lemma GrowsOn(s: State, t: Pass, pick: nat)
    requires s.manager.pc == Grow250 && |s.threads| == s.pool.maxThr && Sized(s)
    requires Managed(s.manager, t, |s.workers|, s.pool.minThr, s.pool.maxThr)
    ensures ManagerMove(s, pick).Some?
    ensures var n := ManagerMove(s, pick).value;
            if |s.workers| == t.before + DEFAULT_THREAD_VARY || Num(s.workers, Staying) == s.pool.maxThr
               || t.rounds == s.pool.maxThr
            then n.manager.pc == Decide263
            else t.rounds < |s.threads| && n == GrowSlot(s) && t.rounds == s.manager.i
  {
  }

  // ---- After a shutdown.

  predicate By(m: Move, who: Thread) {
    match who
    case TheWorker(w) => m == WorkerMoves(w)
    case TheProducer(p) => m.ProducerMoves? && m.p == p
    case TheManager => m.ManagerMoves?
  }

  /** How many statements a thread has executed. */
  function Turns(tr: seq<Event>, who: Thread): nat {
    if tr == [] then 0 else Turns(tr[..|tr| - 1], who) + if By(tr[|tr| - 1].1, who) then 1 else 0
  }

  /** How many statements at most are left to a worker, ... */
  function WorkerRank(pc: WorkerPC): nat {
    match pc
    case Take198 => 8
    case Broadcast204 => 7
    case CountUp210 => 6
    case Run213 => 5
    case CountDown218 => 4
    case Asleep174 => 5
    case Woken174 => 5
    case ExitTest176 => 4
    case Lock169 => 3
    case LiveTest180 => 3
    case Test171 => 2
    case Check191 => 1
    case Retired => 0
    case Stopped => 0
  }

  /** ... to a call of threadpool_add, ... */
  function CallRank(pc: ProducerPC): nat {
    match pc
    case Asleep135 => 3
    case Woken135 => 3
    case Test133 => 2
    case Put142 => 2
    case Check137 => 1
    case Signal154 => 1
    case Lock131 => 0
  }

  /** ... and to the manager. */
  function ManagerRank(m: Manager, maxThr: nat): nat {
    match m.pc
    case Lock235 => 21 + maxThr
    case Snapshot236 => 20 + maxThr
    case Snapshot241 => 19 + maxThr
    case Decide245 => 18 + maxThr
    case Lock247 => 17 + maxThr
    case Grow250 => 16 + if m.i < maxThr then maxThr - m.i else 0
    case Decide263 => 15
    case Lock267 => 14
    case Order268 => 13
    case Signal274 => 2 + if m.i < DEFAULT_THREAD_VARY then DEFAULT_THREAD_VARY - m.i else 0
    case Loop232 => 1
    case Finished => 0
  }

  /** 1 while the thread with the lock is past line 137, or past line 191, with a task. */
  function Putting(s: State): nat {
    match s.pool.lock
    case Some(TheProducer(p)) => if p < |s.producers| && s.producers[p].pc == Put142 then 1 else 0
    case _ => 0
  }

  function Taking(s: State): nat {
    match s.pool.lock
    case Some(TheWorker(w)) => if w < |s.workers| && s.workers[w].pc == Take198 then 1 else 0
    case _ => 0
  }

  /** From s to n, by the moves tr after a shutdown. */
  ghost predicate WindsDown(s: State, n: State, tr: seq<Event>) {
    && n.pool.shutdown && Locked(n) && |n.workers| >= |s.workers| && |n.producers| == |s.producers|
    && n.pool.maxThr == s.pool.maxThr
    && (forall w :: 0 <= w < |s.workers| ==>
          Turns(tr, TheWorker(w)) + WorkerRank(n.workers[w].pc) <= WorkerRank(s.workers[w].pc))
    && (forall p :: 0 <= p < |s.producers| ==>
          Turns(tr, TheProducer(p)) + CallRank(n.producers[p].pc)
          <= CallRank(s.producers[p].pc) + 3 * |Brought(tr, p)|)
    && Turns(tr, TheManager) + ManagerRank(n.manager, n.pool.maxThr) <= ManagerRank(s.manager, s.pool.maxThr)
    && |n.pool.accepted| + Putting(n) <= |s.pool.accepted| + Putting(s)
    && |n.pool.taken| + Taking(n) <= |s.pool.taken| + Taking(s)
  }

  lemma TurnsNext(tr: seq<Event>, e: Event, who: Thread)
    ensures Turns(tr + [e], who) == Turns(tr, who) + if By(e.1, who) then 1 else 0
  {
    assert (tr + [e])[..|tr|] == tr;
  }

  /** How one move lowers what is left. */
  ghost predicate Lowers(s: State, n: State, m: Move) {
    && n.pool.shutdown && |n.workers| >= |s.workers| && |n.producers| == |s.producers| && n.pool.maxThr == s.pool.maxThr
    && (forall w :: 0 <= w < |s.workers| ==>
          WorkerRank(n.workers[w].pc) + (if By(m, TheWorker(w)) then 1 else 0) <= WorkerRank(s.workers[w].pc))
    && (forall p :: 0 <= p < |s.producers| ==>
          CallRank(n.producers[p].pc) + (if By(m, TheProducer(p)) then 1 else 0)
          <= CallRank(s.producers[p].pc) + if AddsBy((s, m), p, Lock131) then 3 else 0)
    && ManagerRank(n.manager, n.pool.maxThr) + (if m.ManagerMoves? then 1 else 0)
       <= ManagerRank(s.manager, s.pool.maxThr)
    && |n.pool.accepted| + Putting(n) <= |s.pool.accepted| + Putting(s)
    && |n.pool.taken| + Taking(n) <= |s.pool.taken| + Taking(s)
  }

  lemma WorkerRankFalls(g: Pool, u: Worker, me: nat)
    requires g.shutdown && WorkerStep(g, u, me).Some?
    ensures var (n, v) := WorkerStep(g, u, me).value;
            && WorkerRank(v.pc) < WorkerRank(u.pc) && v.pc != Take198
            && n.accepted == g.accepted && |n.taken| == |g.taken| + (if u.pc == Take198 then 1 else 0)
            && n.shutdown && n.maxThr == g.maxThr
  {
  }

  lemma WorkerLowers(s: State, w: nat)
    requires s.pool.shutdown && Locked(s) && WorkerMove(s, w).Some?
    ensures Lowers(s, WorkerMove(s, w).value, WorkerMoves(w))
  {
    WorkerLock(s.pool, s.workers[w], w);
    WorkerRankFalls(s.pool, s.workers[w], w);
  }

  lemma CallRankFalls(g: Pool, u: Producer, me: nat, task: Task)
    requires g.shutdown && ProducerStep(g, u, me, task).Some?
    ensures var (n, v) := ProducerStep(g, u, me, task).value;
            && CallRank(v.pc) + 1 == CallRank(u.pc) + (if u.pc == Lock131 then 3 else 0) && v.pc != Put142
            && n.taken == g.taken && |n.accepted| == |g.accepted| + (if u.pc == Put142 then 1 else 0)
            && n.shutdown && n.maxThr == g.maxThr
  {
  }

  lemma ProducerLowers(s: State, m: Move)
    requires s.pool.shutdown && Locked(s) && m.ProducerMoves? && Step(s, m).Some?
    ensures Lowers(s, Step(s, m).value, m)
  {
    ProducerLock(s.pool, s.producers[m.p], m.p, m.task);
    CallRankFalls(s.pool, s.producers[m.p], m.p, m.task);
  }

  lemma ManagerRankFalls(g: Pool, m: Manager)
    requires g.shutdown && ManagerStep(g, m).Some?
    ensures var (n, v) := ManagerStep(g, m).value;
            && ManagerRank(v, g.maxThr) < ManagerRank(m, g.maxThr)
            && n.taken == g.taken && n.accepted == g.accepted && n.shutdown && n.maxThr == g.maxThr
  {
  }

  lemma RoundLowers(s: State, m: Move)
    requires s.pool.shutdown && Locked(s) && m.ManagerMoves?
    requires s.manager.pc == Grow250 && GrowGoesOn(s.pool, s.manager) && s.manager.i < |s.threads|
    ensures Lowers(s, GrowSlot(s), m)
  {
  }

  lemma ManagerLowers(s: State, m: Move)
    requires s.pool.shutdown && Locked(s) && m.ManagerMoves? && Step(s, m).Some?
    ensures Lowers(s, Step(s, m).value, m)
  {
    if s.manager.pc == Grow250 && GrowGoesOn(s.pool, s.manager) && s.manager.i < |s.threads| {
      RoundLowers(s, m);
    } else if s.manager.pc != Signal274 || s.manager.i >= DEFAULT_THREAD_VARY {
      ManagerLock(s.pool, s.manager);
      ManagerRankFalls(s.pool, s.manager);
    }
  }

  lemma WakingLowers(s: State, m: Move)
    requires s.pool.shutdown && !m.WorkerMoves? && !m.ProducerMoves? && !m.ManagerMoves? && Step(s, m).Some?
    ensures Lowers(s, Step(s, m).value, m)
  {
  }

  lemma StepLowers(s: State, m: Move)
    requires s.pool.shutdown && Locked(s) && Step(s, m).Some?
    ensures Lowers(s, Step(s, m).value, m)
  {
    match m
    case WorkerMoves(w) => WorkerLowers(s, w);
    case ProducerMoves(_, _, _) => ProducerLowers(s, m);
    case ManagerMoves(_) => ManagerLowers(s, m);
    case _ => WakingLowers(s, m);
  }

  lemma StepWindsDown(start: State, s: State, tr: seq<Event>, m: Move)
    requires WindsDown(start, s, tr) && Step(s, m).Some?
    ensures WindsDown(start, Step(s, m).value, tr + [(s, m)])
  {
    StepLowers(s, m);
    StepKeepsLock(s, m);
    forall who ensures Turns(tr + [(s, m)], who) == Turns(tr, who) + if By(m, who) then 1 else 0 {
      TurnsNext(tr, (s, m), who);
    }
    forall p ensures |Brought(tr + [(s, m)], p)| == |Brought(tr, p)| + if AddsBy((s, m), p, Lock131) then 1 else 0 {
      CallsNext(tr, (s, m), p);
    }
  }

  /** After a shutdown everything ends: no worker executes more than eight statements and no
      call more than three, the manager finishes its pass and stops, and at most one more
      task is accepted and one more taken. */
  lemma ShutdownEnds(minThr: nat, maxThr: nat, queueMaxSize: nat, producers: nat, moves: seq<Move>, more: seq<Move>)
    requires minThr <= maxThr && queueMaxSize > 0
    requires After(minThr, maxThr, queueMaxSize, producers, moves).pool.shutdown
    ensures var s := After(minThr, maxThr, queueMaxSize, producers, moves);
            WindsDown(s, After(minThr, maxThr, queueMaxSize, producers, moves + more), Trace(Step, s, more))
  {
    AfterKeepsInv(minThr, maxThr, queueMaxSize, producers, moves);
    var start := After(minThr, maxThr, queueMaxSize, producers, moves);
    ExecConcat(Step, Create(minThr, maxThr, queueMaxSize, producers), moves, more);
    forall s, tr, m | WindsDown(start, s, tr) && Step(s, m).Some?
      ensures WindsDown(start, Step(s, m).value, tr + [(s, m)])
    {
      StepWindsDown(start, s, tr, m);
    }
    Traced(Step, (s, tr) => WindsDown(start, s, tr), start, [], more);
    assert [] + Trace(Step, start, more) == Trace(Step, start, more);
  }

  // ---- Who can move.

  /** The thread waits for the lock. */
  predicate WorkerWaits(pc: WorkerPC) { pc == Lock169 || pc == Woken174 }

  predicate ProducerWaits(pc: ProducerPC) { pc == Lock131 || pc == Woken135 }

  predicate ManagerWaits(pc: ManagerPC) { pc == Lock235 || pc == Lock247 || pc == Lock267 }

  /** A signal can go to `pick`, or to nobody. */
  ghost predicate Wakes(ws: seq<Worker>, pick: nat) {
    (pick < |ws| && ws[pick].pc == Asleep174) || forall w :: 0 <= w < |ws| ==> ws[w].pc != Asleep174
  }

  lemma WakesExactly(ws: seq<Worker>, pick: nat)
    ensures Signal(ws, pick).Some? <==> Wakes(ws, pick)
  {
    if forall w :: 0 <= w < |ws| ==> ws[w].pc != Asleep174 {
      NobodySleeps(ws);
    } else {
      var w :| 0 <= w < |ws| && ws[w].pc == Asleep174;
      NumPositive(ws, w, Sleeping);
    }
  }

  lemma {:induction false} NobodySleeps(ws: seq<Worker>)
    requires forall w :: 0 <= w < |ws| ==> ws[w].pc != Asleep174
    ensures Num(ws, Sleeping) == 0
  {
    if ws != [] {
      NobodySleeps(ws[1..]);
    }
  }

  ghost predicate Enabled(s: State, m: Move) {
    match m
    case WorkerMoves(w) =>
      && w < |s.workers| && s.workers[w].pc != Asleep174 && !Left(s.workers[w])
      && (WorkerWaits(s.workers[w].pc) ==> s.pool.lock == None)
    case ProducerMoves(p, _, pick) =>
      && p < |s.producers| && s.producers[p].pc != Asleep135
      && (ProducerWaits(s.producers[p].pc) ==> s.pool.lock == None)
      && (s.producers[p].pc == Signal154 ==> Wakes(s.workers, pick))
    case ManagerMoves(pick) =>
      && s.manager.pc != Finished && (ManagerWaits(s.manager.pc) ==> s.pool.lock == None)
      && (s.manager.pc == Signal274 && s.manager.i < DEFAULT_THREAD_VARY ==> Wakes(s.workers, pick))
    case WorkerWakes(w) => w < |s.workers| && s.workers[w].pc == Asleep174
    case ProducerWakes(p) => p < |s.producers| && s.producers[p].pc == Asleep135
    case WorkerEnds(w) => w < |s.workers| && Left(s.workers[w])
    case Shutdown => true
  }

  lemma WorkerGoesExactly(s: State, w: nat)
    requires Queued(s)
    ensures WorkerMove(s, w).Some? <==> Enabled(s, WorkerMoves(w))
  {
    if w < |s.workers| { assert WorkerReady(s.pool, s.workers[w]); }
  }

  lemma ProducerGoesExactly(s: State, m: Move)
    requires Queued(s) && m.ProducerMoves?
    ensures Step(s, m).Some? <==> Enabled(s, m)
  {
    WakesExactly(s.workers, m.pick);
    if m.p < |s.producers| { assert ProducerReady(s.pool, s.producers[m.p]); }
  }

  lemma ManagerGoesExactly(s: State, pick: nat)
    ensures ManagerMove(s, pick).Some? <==> Enabled(s, ManagerMoves(pick))
  {
    WakesExactly(s.workers, pick);
  }

  /** In every run a thread can execute its next statement exactly if it does not sleep, has
      not ended, and does not wait for the lock while another has that. */
  lemma MovesExactly(minThr: nat, maxThr: nat, queueMaxSize: nat, producers: nat, moves: seq<Move>, m: Move)
    requires minThr <= maxThr && queueMaxSize > 0
    ensures var s := After(minThr, maxThr, queueMaxSize, producers, moves);
            Step(s, m).Some? <==> Enabled(s, m)
  {
    AfterKeepsInv(minThr, maxThr, queueMaxSize, producers, moves);
    var s := After(minThr, maxThr, queueMaxSize, producers, moves);
    match m
    case WorkerMoves(w) => WorkerGoesExactly(s, w);
    case ProducerMoves(_, _, _) => ProducerGoesExactly(s, m);
    case ManagerMoves(pick) => ManagerGoesExactly(s, pick);
    case _ =>
  }

  /** No thread can go on, except by a new call of threadpool_add. */
  ghost predicate Quiet(s: State) {
    && (forall w: nat :: Step(s, WorkerMoves(w)).None?)
    && (forall pick: nat :: Step(s, ManagerMoves(pick)).None?)
    && (forall p: nat, task, pick: nat :: p < |s.producers| && s.producers[p].pc != Lock131 ==>
          Step(s, ProducerMoves(p, task, pick)).None?)
  }

  /** Where nobody can go on the lock is free, every call has returned or sleeps, every
      worker has left or sleeps, and the manager has finished, which takes a shutdown. */
  lemma QuietIsOver(minThr: nat, maxThr: nat, queueMaxSize: nat, producers: nat, moves: seq<Move>)
    requires minThr <= maxThr && queueMaxSize > 0
    requires Quiet(After(minThr, maxThr, queueMaxSize, producers, moves))
    ensures var s := After(minThr, maxThr, queueMaxSize, producers, moves);
            && s.pool.lock == None && s.manager.pc == Finished && s.pool.shutdown
            && (forall w :: 0 <= w < |s.workers| ==> s.workers[w].pc == Asleep174 || Left(s.workers[w]))
            && (forall p :: 0 <= p < |s.producers| ==> s.producers[p].pc == Asleep135 || s.producers[p].pc == Lock131)
  {
    var s := After(minThr, maxThr, queueMaxSize, producers, moves);
    RunIsAccounted(minThr, maxThr, queueMaxSize, producers, moves);
    var m := LockHolderGoesOn(minThr, maxThr, queueMaxSize, producers, moves);
    LockIsFree(s, m);
    var pick := ASleeper(s.workers);
    ManagerGoesExactly(s, pick);
    assert Step(s, ManagerMoves(pick)).None?;
    WakesExactly(s.workers, pick);
    forall w: nat | w < |s.workers| ensures s.workers[w].pc == Asleep174 || Left(s.workers[w]) {
      WorkerGoesExactly(s, w);
      assert Step(s, WorkerMoves(w)).None?;
    }
    forall p: nat | p < |s.producers| ensures s.producers[p].pc == Asleep135 || s.producers[p].pc == Lock131 {
      ProducerGoesExactly(s, ProducerMoves(p, Task(0, 0), pick));
    }
  }

  lemma LockIsFree(s: State, m: Move)
    requires Locked(s)
    requires match s.pool.lock
             case None => true
             case Some(TheWorker(w)) => m == WorkerMoves(w) && Step(s, m).Some?
             case Some(TheProducer(p)) => m.ProducerMoves? && m.p == p && Step(s, m).Some?
             case Some(TheManager) => m.ManagerMoves? && Step(s, m).Some?
    ensures Quiet(s) ==> s.pool.lock == None
  {
    match s.pool.lock
    case Some(TheProducer(p)) => assert m == ProducerMoves(p, m.task, m.pick) && ProducerHolds(s.producers[p].pc);
    case Some(TheManager) => assert m == ManagerMoves(m.pick);
    case _ =>
  }
}
