/** The counter of thread/synchronization/mutex/main.c: `thread_handler` and the same loop in
    `main`, for any number of threads, one statement per move.  The test in lines 27 and
    46 is made without the mutex. */
module Counter {
  import opened Runs

  /** The limit in lines 27 and 46. */
  const LIMIT := 100

  /** `i`, and how many threads are about to execute each statement. */
  datatype State = State(
    i: nat, locked: bool,
    greetLock: nat,   // 24, 42
    greetUnlock: nat, // 26, 44
    test: nat,        // 27, 46  i < 100
    lock: nat,        // 28, 47
    bump: nat,        // 29, 48  ++i
    unlock: nat,      // 31, 50
    done: nat         // 33, 53
  ) {
    function Total(): nat { greetLock + greetUnlock + test + Pending() + unlock + done }

    /** Threads past the test that have yet to increment. */
    function Pending(): nat { lock + bump }

    function Inside(): nat { greetUnlock + bump + unlock }
  }

  datatype Move = GreetLock | GreetUnlock | Test | Lock | Bump | Unlock

  function Init(threads: nat): State { State(0, false, threads, 0, 0, 0, 0, 0, 0) }

  function Step(s: State, m: Move): Option<State> {
    match m
    case GreetLock =>
      if s.greetLock == 0 || s.locked then None
      else Some(s.(locked := true, greetLock := s.greetLock - 1, greetUnlock := s.greetUnlock + 1))
    case GreetUnlock =>
      if s.greetUnlock == 0 then None
      else Some(s.(locked := false, greetUnlock := s.greetUnlock - 1, test := s.test + 1))
    case Test =>
      if s.test == 0 then None
      else if s.i < LIMIT then Some(s.(test := s.test - 1, lock := s.lock + 1))
      else Some(s.(test := s.test - 1, done := s.done + 1))
    case Lock =>
      if s.lock == 0 || s.locked then None
      else Some(s.(locked := true, lock := s.lock - 1, bump := s.bump + 1))
    case Bump =>
      if s.bump == 0 then None
      else Some(s.(i := s.i + 1, bump := s.bump - 1, unlock := s.unlock + 1))
    case Unlock =>
      if s.unlock == 0 then None
      else Some(s.(locked := false, unlock := s.unlock - 1, test := s.test + 1))
  }

  function After(threads: nat, moves: seq<Move>): State { Exec(Step, Init(threads), moves) }

  /** A thread may slip past the test, but only while i is below the limit. */
  predicate Inv(s: State, threads: nat) {
    && s.Total() == threads
    && s.Inside() == (if s.locked then 1 else 0)
    && s.i + s.Pending() < LIMIT + threads
    && (s.done > 0 ==> s.i >= LIMIT)
  }

  lemma StepKeepsInv(s: State, threads: nat, m: Move)
    requires Inv(s, threads) && Step(s, m).Some?
    ensures Inv(Step(s, m).value, threads)
  {
  }

  lemma RunKeepsInv(threads: nat, moves: seq<Move>)
    ensures Inv(After(threads, moves), threads)
  {
    forall s, m | Inv(s, threads) && Step(s, m).Some? ensures Inv(Step(s, m).value, threads) {
      StepKeepsInv(s, threads, m);
    }
    Invariant(Step, s => Inv(s, threads), Init(threads), moves);
  }

  /** i and the threads past the test never exceed 99 + N. */
  lemma OvershootIsBounded(threads: nat, moves: seq<Move>)
    requires threads > 0
    ensures var s := After(threads, moves); s.i + s.Pending() <= LIMIT - 1 + threads
  {
    RunKeepsInv(threads, moves);
  }

  // ---- Termination.

  /** How many moves are left at most. */
  function Left(s: State, threads: nat): int {
    4 * (LIMIT + threads - s.i) + 6 * s.greetLock + 5 * s.greetUnlock + 4 * s.test + 3 * s.lock + 2 * s.bump
        + 5 * s.unlock
  }

  lemma StepCountsDown(s: State, threads: nat, m: Move)
    requires Step(s, m).Some?
    ensures Left(Step(s, m).value, threads) < Left(s, threads)
  {
  }

  lemma {:induction false} RunsAreShort(s: State, threads: nat, moves: seq<Move>)
    requires Inv(s, threads) && Effective(Step, s, moves)
    ensures |moves| <= Left(s, threads)
    decreases |moves|
  {
    if moves != [] {
      StepKeepsInv(s, threads, moves[0]);
      StepCountsDown(s, threads, moves[0]);
      RunsAreShort(Step(s, moves[0]).value, threads, moves[1..]);
    }
  }

  lemma SomebodyMoves(s: State, threads: nat)
    requires Inv(s, threads) && s.done < threads
    ensures exists m :: Step(s, m).Some?
  {
    var m := if s.greetUnlock > 0 then GreetUnlock else if s.bump > 0 then Bump else if s.unlock > 0 then Unlock
             else if s.test > 0 then Test else if s.greetLock > 0 then GreetLock else Lock;
    assert Step(s, m).Some?;
  }

  /** Whatever the schedule, the program ends: no run is longer than 400 + 10 N
      moves, and where nobody can move all threads are done with 100 <= i <= 99 + N. */
  lemma EveryRunEnds(threads: nat, moves: seq<Move>)
    requires threads > 0 && Effective(Step, Init(threads), moves)
    ensures |moves| <= 4 * LIMIT + 10 * threads
    ensures var s := After(threads, moves);
            (forall m :: Step(s, m).None?) <==> s.done == threads
    ensures var s := After(threads, moves);
            s.done == threads ==> LIMIT <= s.i <= LIMIT - 1 + threads
  {
    RunsAreShort(Init(threads), threads, moves);
    RunKeepsInv(threads, moves);
    StopsExactly(After(threads, moves), threads);
  }

  lemma StopsExactly(s: State, threads: nat)
    requires Inv(s, threads)
    ensures (forall m :: Step(s, m).None?) <==> s.done == threads
  {
    if s.done < threads { SomebodyMoves(s, threads); }
  }

  // ---- The bound is tight.

  /** n times the same moves. */
  function Times(n: nat, moves: seq<Move>): seq<Move> {
    if n == 0 then [] else moves + Times(n - 1, moves)
  }

  lemma {:induction false} AllGreet(s: State, n: nat)
    requires !s.locked && s.greetLock >= n
    ensures Exec(Step, s, Times(n, [GreetLock, GreetUnlock])) == s.(greetLock := s.greetLock - n, test := s.test + n)
    decreases n
  {
    if n > 0 {
      ExecConcat(Step, s, [GreetLock, GreetUnlock], Times(n - 1, [GreetLock, GreetUnlock]));
      Two(s, GreetLock, GreetUnlock);
      AllGreet(s.(greetLock := s.greetLock - 1, test := s.test + 1), n - 1);
    }
  }

  lemma Two(s: State, a: Move, b: Move)
    requires Step(s, a).Some? && Step(Step(s, a).value, b).Some?
    ensures Exec(Step, s, [a, b]) == Step(Step(s, a).value, b).value
  {
    assert [a, b][1..] == [b];
    assert Exec(Step, Step(s, a).value, [b]) == Exec(Step, Step(Step(s, a).value, b).value, []);
  }

  lemma One(s: State, a: Move)
    requires Step(s, a).Some?
    ensures Exec(Step, s, [a]) == Step(s, a).value
  {
    assert Exec(Step, s, [a]) == Exec(Step, Step(s, a).value, []);
  }

  lemma {:induction false} Tests(s: State, n: nat)
    requires s.test >= n
    ensures Exec(Step, s, Times(n, [Test])) ==
            if s.i < LIMIT then s.(test := s.test - n, lock := s.lock + n)
            else s.(test := s.test - n, done := s.done + n)
    decreases n
  {
    if n > 0 {
      ExecConcat(Step, s, [Test], Times(n - 1, [Test]));
      One(s, Test);
      Tests(Step(s, Test).value, n - 1);
    }
  }

  lemma {:induction false} Bumps(s: State, n: nat)
    requires !s.locked && s.lock >= n
    ensures Exec(Step, s, Times(n, [Lock, Bump, Unlock])) == s.(i := s.i + n, lock := s.lock - n, test := s.test + n)
    decreases n
  {
    if n > 0 {
      ExecConcat(Step, s, [Lock, Bump, Unlock], Times(n - 1, [Lock, Bump, Unlock]));
      Increment(s);
      Bumps(s.(i := s.i + 1, lock := s.lock - 1, test := s.test + 1), n - 1);
    }
  }

  lemma Increment(s: State)
    requires !s.locked && s.lock > 0
    ensures Exec(Step, s, [Lock, Bump, Unlock]) == s.(i := s.i + 1, lock := s.lock - 1, test := s.test + 1)
  {
    var t := s.(locked := true, lock := s.lock - 1, bump := s.bump + 1);
    Three(s, t, Lock, Bump, Unlock);
  }

  lemma Three(s: State, t: State, a: Move, b: Move, c: Move)
    requires Step(s, a) == Some(t) && Step(t, b).Some? && Step(Step(t, b).value, c).Some?
    ensures Exec(Step, s, [a, b, c]) == Step(Step(t, b).value, c).value
  {
    assert [a, b, c][1..] == [b, c];
    Two(t, b, c);
  }

  lemma {:induction false} Turns(s: State, n: nat)
    requires !s.locked && s.test > 0 && s.i + n <= LIMIT
    ensures Exec(Step, s, Times(n, [Test, Lock, Bump, Unlock])) == s.(i := s.i + n)
    decreases n
  {
    if n > 0 {
      OneTurn(s);
      ExecConcat(Step, s, [Test, Lock, Bump, Unlock], Times(n - 1, [Test, Lock, Bump, Unlock]));
      Turns(s.(i := s.i + 1), n - 1);
    }
  }

  lemma OneTurn(s: State)
    requires !s.locked && s.test > 0 && s.i < LIMIT
    ensures Exec(Step, s, [Test, Lock, Bump, Unlock]) == s.(i := s.i + 1)
  {
    One(s, Test);
    Increment(Step(s, Test).value);
    ExecConcat(Step, s, [Test], [Lock, Bump, Unlock]);
    assert [Test] + [Lock, Bump, Unlock] == [Test, Lock, Bump, Unlock];
  }

  /** One thread takes i to 99; then k threads test before any of them increments. */
  function Schedule(threads: nat, k: nat): seq<Move> {
    Times(threads, [GreetLock, GreetUnlock]) + Times(LIMIT - 1, [Test, Lock, Bump, Unlock])
    + Times(k, [Test]) + Times(k, [Lock, Bump, Unlock]) + Times(threads, [Test])
  }

  lemma ScheduleEnds(threads: nat, k: nat)
    requires 0 < k <= threads
    ensures After(threads, Schedule(threads, k)) == State(LIMIT - 1 + k, false, 0, 0, 0, 0, 0, 0, threads)
  {
    var a, b := Times(threads, [GreetLock, GreetUnlock]), Times(LIMIT - 1, [Test, Lock, Bump, Unlock]);
    var c, d, e := Times(k, [Test]), Times(k, [Lock, Bump, Unlock]), Times(threads, [Test]);
    var s0 := Init(threads);
    ExecConcat(Step, s0, a + b + c + d, e);
    ExecConcat(Step, s0, a + b + c, d);
    ExecConcat(Step, s0, a + b, c);
    ExecConcat(Step, s0, a, b);
    AllGreet(s0, threads);
    var s1 := s0.(greetLock := 0, test := threads);
    Turns(s1, LIMIT - 1);
    var s2 := s1.(i := LIMIT - 1);
    Tests(s2, k);
    Bumps(s2.(test := threads - k, lock := k), k);
    Tests(s2.(i := LIMIT - 1 + k), threads);
  }

  /** The values that N threads can leave are exactly 100 .. 99 + N; for the program as it
      stands, with two, 100 and 101. */
  lemma FinalValuesExactly(threads: nat, v: nat)
    requires threads > 0
    ensures (exists moves :: After(threads, moves).done == threads && After(threads, moves).i == v)
            <==> LIMIT <= v <= LIMIT - 1 + threads
  {
    if LIMIT <= v <= LIMIT - 1 + threads {
      ScheduleEnds(threads, v - (LIMIT - 1));
    }
    forall moves | After(threads, moves).done == threads
      ensures LIMIT <= After(threads, moves).i <= LIMIT - 1 + threads
    {
      RunKeepsInv(threads, moves);
    }
  }
}
