/** The state of the readers-preference protocol by the statements that have been executed:
    what was written, what every variable holds, and where every thread stands. */
module ReaderWriterHistory {
  import opened Runs
  import opened ReaderWriter

  /** The characters stored, in order. */
  function Stored(h: seq<Move>): seq<char> {
    if h == [] then []
    else
      var last := h[|h| - 1];
      Stored(h[..|h| - 1]) + if last.OfWriter? && last.wm.Store? then [last.wm.c] else []
  }

  /** Some reader has raised the flag and no writer has taken it down since. */
  function Raised(h: seq<Move>): bool {
    if h == [] then false
    else if h[|h| - 1] == OfReader(SetFlag) then true
    else if h[|h| - 1] == OfWriter(ClearFlag) then false
    else Raised(h[..|h| - 1])
  }

  // ---- The variables that count.

  datatype Variable = CountSem | WriteSem | DataSem | GateSem | ReadCount | DataSize

  function Value(s: State, v: Variable): int {
    match v
    case CountSem => s.countSem
    case WriteSem => s.writeSem
    case DataSem => s.dataSem
    case GateSem => s.gateSem
    case ReadCount => s.readcount
    case DataSize => s.datasize
  }

  /** The statements that raise and lower a variable by one. */
  predicate Raises(m: Move, v: Variable) {
    match v
    case CountSem => m == OfReader(PostCount) || m == OfReader(PostCountOut)
    case WriteSem => m == OfReader(Lend) || m == OfReader(ReleaseWrite) || m == OfWriter(Release)
    case DataSem => m == OfWriter(PostData)
    case GateSem => m == OfReader(OpenGate)
    case ReadCount => m == OfReader(Enter)
    case DataSize => m == OfWriter(Bump)
  }

  predicate Lowers(m: Move, v: Variable) {
    match v
    case CountSem => m == OfReader(WaitCount) || m == OfReader(WaitCountOut)
    case WriteSem => m == OfReader(WaitWrite) || m == OfReader(Reclaim) || m == OfWriter(Acquire)
    case DataSem => m == OfReader(AwaitData)
    case GateSem => m == OfReader(WaitGate)
    case ReadCount => m == OfReader(Leave)
    case DataSize => false
  }

  function Change(m: Move, v: Variable): int { if Raises(m, v) then 1 else if Lowers(m, v) then -1 else 0 }

  /** By how much the statements executed have changed a variable. */
  function Total(h: seq<Move>, v: Variable): int {
    if h == [] then 0 else Total(h[..|h| - 1], v) + Change(h[|h| - 1], v)
  }

  lemma ReaderChanges(s: State, m: ReaderMove, v: Variable)
    requires ReaderStep(s, m).Some?
    ensures Value(ReaderStep(s, m).value, v) == Value(s, v) + Change(OfReader(m), v)
  {
  }

  lemma ReaderRaises(s: State, m: ReaderMove)
    requires ReaderStep(s, m).Some?
    ensures ReaderStep(s, m).value.flag == (m == SetFlag || s.flag)
  {
  }

  lemma WriterChanges(s: State, m: WriterMove, v: Variable)
    requires WriterStep(s, m).Some?
    ensures Value(WriterStep(s, m).value, v) == Value(s, v) + Change(OfWriter(m), v)
    ensures WriterStep(s, m).value.flag == (m != ClearFlag && s.flag)
  {
  }

  // ---- Where the threads stand.

  /** A statement is named by the move that executes it; what is stored does not matter. */
  function Statement(m: Move): Move { if m.OfWriter? && m.wm.Store? then OfWriter(Store(' ')) else m }

  /** How many threads are about to execute a statement. */
  function Standing(s: State, x: Move): nat {
    match x
    case OfReader(rm) => StandingReaders(s.r, rm)
    case OfWriter(wm) => StandingWriters(s.w, wm)
  }

  function StandingReaders(r: Readers, x: ReaderMove): nat {
    match x
    case WaitCount => r.waitCount
    case TestFirst => r.testFirst
    case WaitWrite => r.waitWrite
    case Enter => r.enter
    case PostCount => r.postCount
    case WaitGate => r.waitGate
    case TestData => r.testData
    case SetFlag => r.setFlag
    case Lend => r.lend
    case AwaitData => r.awaitData
    case Reclaim => r.reclaim
    case OpenGate => r.openGate
    case Reading => r.reading
    case WaitCountOut => r.waitCountOut
    case Leave => r.leave
    case TestLast => r.testLast
    case ReleaseWrite => r.releaseWrite
    case PostCountOut => r.postCountOut
  }

  function StandingWriters(w: Writers, x: WriterMove): nat {
    match x
    case Acquire => w.acquire
    case Store(_) => w.store
    case Bump => w.bump
    case Show => w.show
    case Release => w.release
    case TestFlag => w.testFlag
    case PostData => w.postData
    case ClearFlag => w.clearFlag
  }

  /** The statement after a reader's, where the test in it has come out as given. */
  function After(x: ReaderMove, test: bool): ReaderMove {
    match x
    case WaitCount => TestFirst
    case TestFirst => if test then WaitWrite else Enter
    case WaitWrite => Enter
    case Enter => PostCount
    case PostCount => WaitGate
    case WaitGate => TestData
    case TestData => if test then SetFlag else OpenGate
    case SetFlag => Lend
    case Lend => AwaitData
    case AwaitData => Reclaim
    case Reclaim => OpenGate
    case OpenGate => Reading
    case Reading => WaitCountOut
    case WaitCountOut => Leave
    case Leave => TestLast
    case TestLast => if test then ReleaseWrite else PostCountOut
    case ReleaseWrite => PostCountOut
    case PostCountOut => WaitCount
  }

  /** The same for a writer's. */
  function AfterWriters(x: WriterMove, test: bool): WriterMove {
    match x
    case Acquire => Store(' ')
    case Store(_) => Bump
    case Bump => Show
    case Show => Release
    case Release => TestFlag
    case TestFlag => if test then PostData else Acquire
    case PostData => ClearFlag
    case ClearFlag => Acquire
  }

  /** How the test in a statement comes out after h: no reader is counted, nothing is
      written, the flag is up. */
  predicate Test(h: seq<Move>, m: Move) {
    match m
    case OfReader(rm) => if rm == TestData then Total(h, DataSize) == 0 else Total(h, ReadCount) == 0
    case OfWriter(_) => Raised(h)
  }

  function Goes(h: seq<Move>, m: Move): Move {
    match m
    case OfReader(rm) => OfReader(After(rm, Test(h, m)))
    case OfWriter(wm) => OfWriter(AfterWriters(wm, Test(h, m)))
  }

  /** How many threads have come to a statement, less those that have executed it. */
  function Arrived(h: seq<Move>, x: Move): int {
    if h == [] then 0
    else
      var past, m := h[..|h| - 1], h[|h| - 1];
      Arrived(past, x) + (if x == Goes(past, m) then 1 else 0) - if x == Statement(m) then 1 else 0
  }

  /** Some reader executes m, and each stands where its statement leads. */
  ghost predicate Follows(s: State, m: ReaderMove, n: State, x: ReaderMove) {
    var test := if m == TestData then s.datasize == 0 else s.readcount == 0;
    StandingReaders(n.r, x) ==
    StandingReaders(s.r, x) + (if x == After(m, test) then 1 else 0) - if x == m then 1 else 0
  }

  lemma ReaderGoesIn(s: State, m: ReaderMove, x: ReaderMove)
    requires ReaderStep(s, m).Some? && ComingIn(m)
    ensures Follows(s, m, ReaderStep(s, m).value, x)
  {
  }

  lemma ReaderGoesThrough(s: State, m: ReaderMove, x: ReaderMove)
    requires ReaderStep(s, m).Some? && AtTheGate(m)
    ensures Follows(s, m, ReaderStep(s, m).value, x)
  {
  }

  lemma ReaderGoesOut(s: State, m: ReaderMove, x: ReaderMove)
    requires ReaderStep(s, m).Some? && !ComingIn(m) && !AtTheGate(m)
    ensures Follows(s, m, ReaderStep(s, m).value, x)
  {
  }

  lemma ReaderGoes(s: State, m: ReaderMove, x: ReaderMove)
    requires ReaderStep(s, m).Some?
    ensures Follows(s, m, ReaderStep(s, m).value, x)
  {
    if ComingIn(m) {
      ReaderGoesIn(s, m, x);
    } else if AtTheGate(m) {
      ReaderGoesThrough(s, m, x);
    } else {
      ReaderGoesOut(s, m, x);
    }
  }

  lemma WriterGoes(s: State, m: WriterMove, x: WriterMove)
    requires WriterStep(s, m).Some? && Statement(OfWriter(x)) == OfWriter(x)
    ensures StandingWriters(WriterStep(s, m).value.w, x) ==
            StandingWriters(s.w, x) + (if x == AfterWriters(m, s.flag) then 1 else 0)
            - if OfWriter(x) == Statement(OfWriter(m)) then 1 else 0
  {
  }

  // ---- The whole state.

  lemma Next(h: seq<Move>, m: Move)
    ensures forall v :: Total(h + [m], v) == Total(h, v) + Change(m, v)
    ensures forall x :: Arrived(h + [m], x) ==
              Arrived(h, x) + (if x == Goes(h, m) then 1 else 0) - if x == Statement(m) then 1 else 0
    ensures Stored(h + [m]) == Stored(h) + if m.OfWriter? && m.wm.Store? then [m.wm.c] else []
    ensures Raised(h + [m]) == (m == OfReader(SetFlag) || (m != OfWriter(ClearFlag) && Raised(h)))
  {
    assert (h + [m])[..|h|] == h;
  }

  ghost predicate Accounted(start: State, s: State, h: seq<Move>) {
    && (forall v :: Value(s, v) == Value(start, v) + Total(h, v))
    && (forall x :: Statement(x) == x ==> Standing(s, x) == Standing(start, x) + Arrived(h, x))
    && s.flag == Raised(h)
  }

  lemma StepIsAccounted(start: State, s: State, h: seq<Move>, m: Move)
    requires Accounted(start, s, h) && start.readcount == start.datasize == 0 && Step(s, m).Some?
    ensures Accounted(start, Step(s, m).value, h + [m])
  {
    Next(h, m);
    var n := Step(s, m).value;
    assert Value(s, ReadCount) == Total(h, ReadCount) && Value(s, DataSize) == Total(h, DataSize);
    forall v ensures Value(n, v) == Value(s, v) + Change(m, v) {
      match m
      case OfReader(rm) => ReaderChanges(s, rm, v);
      case OfWriter(wm) => WriterChanges(s, wm, v);
    }
    forall x | Statement(x) == x ensures Standing(n, x) == Standing(start, x) + Arrived(h + [m], x) {
      match m {
        case OfReader(rm) =>
          if x.OfReader? { ReaderGoes(s, rm, x.rm); } else { ReaderLeavesWritersAlone(s, rm); }
        case OfWriter(wm) =>
          if x.OfWriter? { WriterGoes(s, wm, x.wm); } else { WriterLeavesReadersAlone(s, wm); }
      }
    }
    match m
    case OfReader(rm) => ReaderRaises(s, rm);
    case OfWriter(wm) => WriterChanges(s, wm, CountSem);
  }

  /** The moves of a schedule that went through. */
  function Past(readers: nat, writers: nat, moves: seq<Move>): seq<Move> {
    Made(Step, Init(readers, writers), moves)
  }

  /** In every run the statements executed so far determine where every thread stands and
      what every variable holds: each wait, post and count has been carried out, and each
      test has gone the way the statements before it ask for. */
  lemma RunIsAccounted(readers: nat, writers: nat, moves: seq<Move>)
    ensures Accounted(Init(readers, writers), Exec(Step, Init(readers, writers), moves), Past(readers, writers, moves))
  {
    var start := Init(readers, writers);
    forall s, h, m | Accounted(start, s, h) && Step(s, m).Some? ensures Accounted(start, Step(s, m).value, h + [m]) {
      StepIsAccounted(start, s, h, m);
    }
    History(Step, (s, h) => Accounted(start, s, h), start, [], moves);
    assert [] + Past(readers, writers, moves) == Past(readers, writers, moves);
  }

  /** A thread stands at the statement, and the semaphore it waits for is up. */
  ghost predicate Ready(s: State, m: Move) {
    Standing(s, Statement(m)) > 0 && forall v :: Lowers(m, v) && v != ReadCount ==> Value(s, v) > 0
  }

  lemma ReaderGoesExactly(s: State, m: ReaderMove)
    requires Inv(s)
    ensures ReaderStep(s, m).Some? <==> Ready(s, OfReader(m))
  {
    match m
    case WaitCount => assert Lowers(OfReader(m), CountSem);
    case WaitCountOut => assert Lowers(OfReader(m), CountSem);
    case WaitWrite => assert Lowers(OfReader(m), WriteSem);
    case Reclaim => assert Lowers(OfReader(m), WriteSem);
    case AwaitData => assert Lowers(OfReader(m), DataSem);
    case WaitGate => assert Lowers(OfReader(m), GateSem);
    case _ =>
  }

  lemma WriterGoesExactly(s: State, m: WriterMove)
    requires Inv(s)
    ensures WriterStep(s, m).Some? <==> Ready(s, OfWriter(m))
  {
    if m == Acquire { assert Lowers(OfWriter(m), WriteSem); }
  }

  /** A statement can be executed exactly if the statements before it have brought a thread
      there and, where it waits, have left its semaphore above zero. */
  lemma MovesExactly(readers: nat, writers: nat, moves: seq<Move>, m: Move)
    ensures var start, h := Init(readers, writers), Past(readers, writers, moves);
            Step(Exec(Step, start, moves), m).Some? <==>
              && Standing(start, Statement(m)) + Arrived(h, Statement(m)) > 0
              && (forall v :: Lowers(m, v) && v != ReadCount ==> Value(start, v) + Total(h, v) > 0)
  {
    var s := Exec(Step, Init(readers, writers), moves);
    RunIsAccounted(readers, writers, moves);
    RunKeepsInv(readers, writers, moves);
    match m
    case OfReader(rm) => ReaderGoesExactly(s, rm);
    case OfWriter(wm) => WriterGoesExactly(s, wm);
  }

  // ---- What is in the buffer.

  ghost predicate Written(s: State, h: seq<Move>) { Inv(s) && s.buf == Stored(h) }

  lemma StepIsWritten(s: State, h: seq<Move>, m: Move)
    requires Written(s, h) && Step(s, m).Some?
    ensures Written(Step(s, m).value, h + [m])
  {
    StepKeepsInv(s, m);
    Next(h, m);
    match m
    case OfReader(rm) => ReaderLeavesWritersAlone(s, rm);
    case OfWriter(wm) => WriterAppends(s, wm);
  }

  lemma WriterAppends(s: State, m: WriterMove)
    requires Inv(s) && WriterStep(s, m).Some?
    ensures WriterStep(s, m).value.buf == s.buf + if m.Store? then [m.c] else []
  {
    if m.Store? { assert s.buf[..s.datasize] == s.buf; }
  }

  /** The buffer is the characters stored so far, in the order of the stores; all but one
      that is not counted yet are in `datasize`. */
  lemma BufferIsWhatWasStored(readers: nat, writers: nat, moves: seq<Move>)
    ensures var s := Exec(Step, Init(readers, writers), moves);
            s.buf == Stored(Past(readers, writers, moves)) && s.datasize <= |s.buf| <= s.datasize + 1
  {
    forall s, h, m | Written(s, h) && Step(s, m).Some? ensures Written(Step(s, m).value, h + [m]) {
      StepIsWritten(s, h, m);
    }
    History(Step, (s, h) => Written(s, h), Init(readers, writers), [], moves);
    assert [] + Past(readers, writers, moves) == Past(readers, writers, moves);
    Exclusion(readers, writers, moves);
  }

  lemma {:induction false} StoredGrows(a: seq<Move>, b: seq<Move>)
    ensures Stored(a) <= Stored(a + b)
    decreases |b|
  {
    if b == [] {
      assert a + b == a;
    } else {
      var c := b[..|b| - 1];
      StoredGrows(a, c);
      Next(a + c, b[|b| - 1]);
      assert a + c + [b[|b| - 1]] == a + b;
    }
  }

  /** What has been written stays: readers only ever see more of the same text. */
  lemma TextOnlyGrows(readers: nat, writers: nat, moves: seq<Move>, more: seq<Move>)
    ensures Exec(Step, Init(readers, writers), moves).buf <= Exec(Step, Init(readers, writers), moves + more).buf
  {
    BufferIsWhatWasStored(readers, writers, moves);
    BufferIsWhatWasStored(readers, writers, moves + more);
    MadeConcat(Step, Init(readers, writers), moves, more);
    StoredGrows(Past(readers, writers, moves), Made(Step, Exec(Step, Init(readers, writers), moves), more));
  }
}
