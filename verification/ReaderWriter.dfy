/** The readers-preference protocol of process/semaphore/reader_writer/main.c,
    for any number of readers and writers, one statement per move.

    Readers are interchangeable and so are writers, so a state records how many
    of them stand in front of each statement rather than who stands where. */
module ReaderWriter {
  import opened Runs

  /** How many readers are about to execute each statement of `reader`. */
  datatype Readers = Readers(
    waitCount: nat,    // 28  sem_wait(&count_sem)
    testFirst: nat,    // 29  readcount == 0
    waitWrite: nat,    // 30  sem_wait(&write_sem)
    enter: nat,        // 32  ++readcount
    postCount: nat,    // 33  sem_post(&count_sem)
    waitGate: nat,     // 35  sem_wait(&datasize_sem)
    testData: nat,     // 37  datasize == 0
    setFlag: nat,      // 38  flag = 1
    lend: nat,         // 39  sem_post(&write_sem)
    awaitData: nat,    // 40  sem_wait(&data_sem)
    reclaim: nat,      // 41  sem_wait(&write_sem)
    openGate: nat,     // 43  sem_post(&datasize_sem)
    reading: nat,      // 46  reads buf
    waitCountOut: nat, // 48  sem_wait(&count_sem)
    leave: nat,        // 49  --readcount
    testLast: nat,     // 50  readcount == 0
    releaseWrite: nat, // 51  sem_post(&write_sem)
    postCountOut: nat  // 53  sem_post(&count_sem)
  ) {
    function Total(): nat { Uncounted() + Counted() }

    /** Readers outside `++readcount` .. `--readcount`. */
    function Uncounted(): nat { waitCount + testFirst + waitWrite + enter + Leaving() }

    /** Holders of `count_sem`. */
    function InCount(): nat { testFirst + waitWrite + enter + postCount + leave + Leaving() }

    /** Holders of `datasize_sem`. */
    function InGate(): nat { testData + setFlag + lend + Lent() + openGate }

    /** Readers between lending the write lock and getting it back. */
    function Lent(): nat { awaitData + reclaim }

    /** Readers past the data gate that still count as readers. */
    function PastGate(): nat { openGate + reading + waitCountOut + leave }

    /** Readers that no longer count as readers but still hold `count_sem`. */
    function Leaving(): nat { testLast + releaseWrite + postCountOut }

    /** Readers between `++readcount` and `--readcount`. */
    function Counted(): nat { postCount + waitGate + InGate() + reading + waitCountOut + leave }
  }

  /** How many writers are about to execute each statement of `writer`. */
  datatype Writers = Writers(
    acquire: nat,   // 64  sem_wait(&write_sem)
    store: nat,     // 66  buf[datasize] = tmp[i]
    bump: nat,      // 66  datasize++
    show: nat,      // 69-72
    release: nat,   // 74  sem_post(&write_sem)
    testFlag: nat,  // 75  flag == 1
    postData: nat,  // 76  sem_post(&data_sem)
    clearFlag: nat  // 77  flag = 0
  ) {
    function Total(): nat { acquire + store + bump + show + release + testFlag + postData + clearFlag }

    /** Writers inside the write section. */
    function Writing(): nat { store + bump + show + release }

    /** Writers that have written and may still post `data_sem`. */
    function ToPost(): nat { show + release + testFlag + postData }
  }

  /** The globals of lines 16-22.  The buffer has no bound here. */
  datatype State = State(
    countSem: nat, writeSem: nat, dataSem: nat, gateSem: nat,
    datasize: nat, readcount: int, flag: bool, buf: seq<char>,
    r: Readers, w: Writers)

  /** The statement of `reader` that some reader executes. */
  datatype ReaderMove =
    | WaitCount | TestFirst | WaitWrite | Enter | PostCount | WaitGate | TestData | SetFlag | Lend
    | AwaitData | Reclaim | OpenGate | Reading | WaitCountOut | Leave | TestLast | ReleaseWrite | PostCountOut

  /** The statement of `writer` that some writer executes.  The character it
      stores comes from its private text and index, so it is any character. */
  datatype WriterMove = Acquire | Store(c: char) | Bump | Show | Release | TestFlag | PostData | ClearFlag

  datatype Move = OfReader(rm: ReaderMove) | OfWriter(wm: WriterMove)

  /** Lines 20-22 and 86-89. */
  function Init(readers: nat, writers: nat): State {
    State(1, 1, 0, 1, 0, 0, false, [],
          Readers(readers, 0, 0, 0, 0, 0, 0, 0, 0, 0, 0, 0, 0, 0, 0, 0, 0, 0),
          Writers(writers, 0, 0, 0, 0, 0, 0, 0))
  }

  /** One statement; None when no thread stands there or its semaphore is zero. */
  function Step(s: State, m: Move): Option<State> {
    match m
    case OfReader(rm) => ReaderStep(s, rm)
    case OfWriter(wm) => WriterStep(s, wm)
  }

  function ReaderStep(s: State, m: ReaderMove): Option<State> {
    match m
    case WaitCount =>
      if s.r.waitCount == 0 || s.countSem == 0 then None else
      Some(s.(countSem := s.countSem - 1, r := s.r.(waitCount := s.r.waitCount - 1, testFirst := s.r.testFirst + 1)))
    case TestFirst =>
      if s.r.testFirst == 0 then None
      else if s.readcount == 0 then
        Some(s.(r := s.r.(testFirst := s.r.testFirst - 1, waitWrite := s.r.waitWrite + 1)))
      else
        Some(s.(r := s.r.(testFirst := s.r.testFirst - 1, enter := s.r.enter + 1)))
    case WaitWrite =>
      if s.r.waitWrite == 0 || s.writeSem == 0 then None else
      Some(s.(writeSem := s.writeSem - 1, r := s.r.(waitWrite := s.r.waitWrite - 1, enter := s.r.enter + 1)))
    case Enter =>
      if s.r.enter == 0 then None else
      Some(s.(readcount := s.readcount + 1, r := s.r.(enter := s.r.enter - 1, postCount := s.r.postCount + 1)))
    case PostCount =>
      if s.r.postCount == 0 then None else
      Some(s.(countSem := s.countSem + 1, r := s.r.(postCount := s.r.postCount - 1, waitGate := s.r.waitGate + 1)))
    case WaitGate =>
      if s.r.waitGate == 0 || s.gateSem == 0 then None else
      Some(s.(gateSem := s.gateSem - 1, r := s.r.(waitGate := s.r.waitGate - 1, testData := s.r.testData + 1)))
    case TestData =>
      if s.r.testData == 0 then None
      else if s.datasize == 0 then
        Some(s.(r := s.r.(testData := s.r.testData - 1, setFlag := s.r.setFlag + 1)))
      else
        Some(s.(r := s.r.(testData := s.r.testData - 1, openGate := s.r.openGate + 1)))
    case SetFlag =>
      if s.r.setFlag == 0 then None else
      Some(s.(flag := true, r := s.r.(setFlag := s.r.setFlag - 1, lend := s.r.lend + 1)))
    case Lend =>
      if s.r.lend == 0 then None else
      Some(s.(writeSem := s.writeSem + 1, r := s.r.(lend := s.r.lend - 1, awaitData := s.r.awaitData + 1)))
    case AwaitData =>
      if s.r.awaitData == 0 || s.dataSem == 0 then None else
      Some(s.(dataSem := s.dataSem - 1, r := s.r.(awaitData := s.r.awaitData - 1, reclaim := s.r.reclaim + 1)))
    case Reclaim =>
      if s.r.reclaim == 0 || s.writeSem == 0 then None else
      Some(s.(writeSem := s.writeSem - 1, r := s.r.(reclaim := s.r.reclaim - 1, openGate := s.r.openGate + 1)))
    case OpenGate =>
      if s.r.openGate == 0 then None else
      Some(s.(gateSem := s.gateSem + 1, r := s.r.(openGate := s.r.openGate - 1, reading := s.r.reading + 1)))
    case Reading =>
      if s.r.reading == 0 then None else
      Some(s.(r := s.r.(reading := s.r.reading - 1, waitCountOut := s.r.waitCountOut + 1)))
    case WaitCountOut =>
      if s.r.waitCountOut == 0 || s.countSem == 0 then None else
      Some(s.(countSem := s.countSem - 1, r := s.r.(waitCountOut := s.r.waitCountOut - 1, leave := s.r.leave + 1)))
    case Leave =>
      if s.r.leave == 0 then None else
      Some(s.(readcount := s.readcount - 1, r := s.r.(leave := s.r.leave - 1, testLast := s.r.testLast + 1)))
    case TestLast =>
      if s.r.testLast == 0 then None
      else if s.readcount == 0 then
        Some(s.(r := s.r.(testLast := s.r.testLast - 1, releaseWrite := s.r.releaseWrite + 1)))
      else
        Some(s.(r := s.r.(testLast := s.r.testLast - 1, postCountOut := s.r.postCountOut + 1)))
    case ReleaseWrite =>
      if s.r.releaseWrite == 0 then None else
      Some(s.(writeSem := s.writeSem + 1,
              r := s.r.(releaseWrite := s.r.releaseWrite - 1, postCountOut := s.r.postCountOut + 1)))
    case PostCountOut =>
      if s.r.postCountOut == 0 then None else
      Some(s.(countSem := s.countSem + 1,
              r := s.r.(postCountOut := s.r.postCountOut - 1, waitCount := s.r.waitCount + 1)))
  }

  function WriterStep(s: State, m: WriterMove): Option<State> {
    match m
    case Acquire =>
      if s.w.acquire == 0 || s.writeSem == 0 then None else
      Some(s.(writeSem := s.writeSem - 1, w := s.w.(acquire := s.w.acquire - 1, store := s.w.store + 1)))
    case Store(c) =>
      if s.w.store == 0 || s.datasize > |s.buf| then None else
      Some(s.(buf := s.buf[..s.datasize] + [c], w := s.w.(store := s.w.store - 1, bump := s.w.bump + 1)))
    case Bump =>
      if s.w.bump == 0 then None else
      Some(s.(datasize := s.datasize + 1, w := s.w.(bump := s.w.bump - 1, show := s.w.show + 1)))
    case Show =>
      if s.w.show == 0 then None else
      Some(s.(w := s.w.(show := s.w.show - 1, release := s.w.release + 1)))
    case Release =>
      if s.w.release == 0 then None else
      Some(s.(writeSem := s.writeSem + 1, w := s.w.(release := s.w.release - 1, testFlag := s.w.testFlag + 1)))
    case TestFlag =>
      if s.w.testFlag == 0 then None
      else if s.flag then
        Some(s.(w := s.w.(testFlag := s.w.testFlag - 1, postData := s.w.postData + 1)))
      else
        Some(s.(w := s.w.(testFlag := s.w.testFlag - 1, acquire := s.w.acquire + 1)))
    case PostData =>
      if s.w.postData == 0 then None else
      Some(s.(dataSem := s.dataSem + 1, w := s.w.(postData := s.w.postData - 1, clearFlag := s.w.clearFlag + 1)))
    case ClearFlag =>
      if s.w.clearFlag == 0 then None else
      Some(s.(flag := false, w := s.w.(clearFlag := s.w.clearFlag - 1, acquire := s.w.acquire + 1)))
  }

  // ---- The invariant.

  /** Tokens of `count_sem`: free or held by a reader between its wait and its post. */
  function CountTokens(s: State): int { s.countSem + s.r.InCount() }

  /** Tokens of `datasize_sem`. */
  function GateTokens(s: State): int { s.gateSem + s.r.InGate() }

  /** 1 when the readers as a group have taken the write lock and not returned it. */
  function Owned(s: State): nat {
    if s.readcount > 0 || s.r.enter + s.r.testLast + s.r.releaseWrite > 0 then 1 else 0
  }

  ghost predicate Locks(s: State) {
    CountTokens(s) == 1 && GateTokens(s) == 1 && s.readcount - s.r.Counted() == 0
  }

  /** The write lock belongs to one writer or to the readers as a group, less what they lent. */
  ghost predicate WriteLock(s: State) {
    && s.writeSem + s.w.Writing() + Owned(s) == 1 + s.r.Lent()
    && (s.r.waitWrite + s.r.releaseWrite > 0 ==> s.readcount == 0)
  }

  /** The hand-off while there is no data. */
  ghost predicate Handoff(s: State) {
    && (s.r.PastGate() + s.r.Leaving() + s.r.reclaim > 0 ==> s.datasize > 0)
    && (s.r.setFlag + s.r.lend > 0 ==> s.datasize == 0)
    && (s.datasize == 0 ==> s.dataSem == 0 && s.w.ToPost() + s.w.clearFlag == 0)
    && (s.r.Lent() > 0 ==> s.r.PastGate() + s.r.Leaving() == 0)
    && (s.r.lend > 0 ==> s.flag)
    && (s.r.awaitData > 0 && s.dataSem == 0 ==>
          s.flag && s.w.clearFlag == 0 && (s.datasize == 0 || s.w.ToPost() > 0))
    && |s.buf| == s.datasize + s.w.bump
  }

  ghost predicate Inv(s: State) { Locks(s) && WriteLock(s) && Handoff(s) }

  lemma CountTokensKept(s: State, m: ReaderMove)
    requires ReaderStep(s, m).Some?
    ensures CountTokens(ReaderStep(s, m).value) == CountTokens(s)
  {
  }

  lemma GateTokensKept(s: State, m: ReaderMove)
    requires ReaderStep(s, m).Some?
    ensures GateTokens(ReaderStep(s, m).value) == GateTokens(s)
  {
  }

  lemma ReadCountKept(s: State, m: ReaderMove)
    requires ReaderStep(s, m).Some?
    ensures ReaderStep(s, m).value.readcount - ReaderStep(s, m).value.r.Counted() == s.readcount - s.r.Counted()
  {
  }

  lemma ReaderKeepsWriteLock(s: State, m: ReaderMove)
    requires Locks(s) && WriteLock(s) && ReaderStep(s, m).Some?
    ensures WriteLock(ReaderStep(s, m).value)
  {
  }

  lemma WriterKeepsWriteLock(s: State, m: WriterMove)
    requires Locks(s) && WriteLock(s) && WriterStep(s, m).Some?
    ensures WriteLock(WriterStep(s, m).value)
  {
  }

  lemma WriterLeavesReadersAlone(s: State, m: WriterMove)
    requires WriterStep(s, m).Some?
    ensures var n := WriterStep(s, m).value;
            n.r == s.r && n.countSem == s.countSem && n.gateSem == s.gateSem && n.readcount == s.readcount
  {
  }

  lemma ReaderLeavesWritersAlone(s: State, m: ReaderMove)
    requires ReaderStep(s, m).Some?
    ensures var n := ReaderStep(s, m).value;
            n.w == s.w && n.datasize == s.datasize && n.buf == s.buf
  {
  }

  /** Lines 28-33. */
  predicate ComingIn(m: ReaderMove) {
    m == WaitCount || m == TestFirst || m == WaitWrite || m == Enter || m == PostCount
  }

  /** Lines 35-43. */
  predicate AtTheGate(m: ReaderMove) {
    m == WaitGate || m == TestData || m == SetFlag || m == Lend || m == AwaitData || m == Reclaim || m == OpenGate
  }

  lemma GateKeepsHandoff(s: State, m: ReaderMove)
    requires Inv(s) && ReaderStep(s, m).Some? && AtTheGate(m)
    ensures Handoff(ReaderStep(s, m).value)
  {
  }

  lemma EnteringKeepsHandoff(s: State, m: ReaderMove)
    requires Inv(s) && ReaderStep(s, m).Some? && ComingIn(m)
    ensures Handoff(ReaderStep(s, m).value)
  {
  }

  lemma LeavingKeepsHandoff(s: State, m: ReaderMove)
    requires Inv(s) && ReaderStep(s, m).Some? && !ComingIn(m) && !AtTheGate(m)
    ensures Handoff(ReaderStep(s, m).value)
  {
  }

  lemma ReaderKeepsHandoff(s: State, m: ReaderMove)
    requires Inv(s) && ReaderStep(s, m).Some?
    ensures Handoff(ReaderStep(s, m).value)
  {
    if ComingIn(m) {
      EnteringKeepsHandoff(s, m);
    } else if AtTheGate(m) {
      GateKeepsHandoff(s, m);
    } else {
      LeavingKeepsHandoff(s, m);
    }
  }

  lemma WriterKeepsHandoff(s: State, m: WriterMove)
    requires Inv(s) && WriterStep(s, m).Some?
    ensures Handoff(WriterStep(s, m).value)
  {
  }

  lemma StepKeepsInv(s: State, m: Move)
    requires Inv(s) && Step(s, m).Some?
    ensures Inv(Step(s, m).value)
  {
    match m
    case OfReader(rm) =>
      CountTokensKept(s, rm);
      GateTokensKept(s, rm);
      ReadCountKept(s, rm);
      ReaderKeepsWriteLock(s, rm);
      ReaderKeepsHandoff(s, rm);
    case OfWriter(wm) =>
      WriterLeavesReadersAlone(s, wm);
      WriterKeepsWriteLock(s, wm);
      WriterKeepsHandoff(s, wm);
  }

  /** The invariant holds after every schedule of any number of readers and writers. */
  lemma RunKeepsInv(readers: nat, writers: nat, moves: seq<Move>)
    ensures Inv(Exec(Step, Init(readers, writers), moves))
  {
    forall s, m | Inv(s) && Step(s, m).Some? ensures Inv(Step(s, m).value) { StepKeepsInv(s, m); }
    Invariant(Step, s => Inv(s), Init(readers, writers), moves);
  }

  // ---- What the program is for.

  /** At every moment at most one writer is in its write section, and while one is
      there no reader is past the data gate, none tests `datasize`, and the
      readers' hold on the write lock, if any, is lent out. */
  lemma Exclusion(readers: nat, writers: nat, moves: seq<Move>)
    ensures var s := Exec(Step, Init(readers, writers), moves);
            s.w.Writing() <= 1
            && (s.w.Writing() > 0 ==> s.r.PastGate() == 0 && s.r.testData == 0 && (s.readcount > 0 ==> s.r.Lent() == 1))
  {
    RunKeepsInv(readers, writers, moves);
  }

  /** What a reader sees does not change under it: a move made while some reader is
      past the data gate leaves the buffer and its size alone. */
  lemma ReadersSeeStableData(readers: nat, writers: nat, moves: seq<Move>, m: Move)
    ensures var s := Exec(Step, Init(readers, writers), moves);
            s.r.PastGate() > 0 && Step(s, m).Some? ==>
              Step(s, m).value.buf == s.buf && Step(s, m).value.datasize == s.datasize == |s.buf| && s.datasize > 0
  {
    RunKeepsInv(readers, writers, moves);
    var s := Exec(Step, Init(readers, writers), moves);
    if s.r.PastGate() > 0 && Step(s, m).Some? {
      match m
      case OfReader(rm) => ReaderLeavesWritersAlone(s, rm);
      case OfWriter(wm) =>
    }
  }

  /** A reader asleep on `data_sem` with no token there is the only one, has its flag
      up, and either nothing has been written yet or a writer is on its way to post. */
  lemma SleepingReaderIsServed(readers: nat, writers: nat, moves: seq<Move>)
    ensures var s := Exec(Step, Init(readers, writers), moves);
            s.r.awaitData > 0 && s.dataSem == 0 ==>
              s.r.awaitData == 1 && s.flag && (s.datasize == 0 || s.w.ToPost() > 0)
  {
    RunKeepsInv(readers, writers, moves);
  }

  /** With a writer the program never comes to a stop: after every schedule some
      thread can execute its next statement. */
  lemma Progress(readers: nat, writers: nat, moves: seq<Move>) returns (m: Move)
    requires writers > 0
    ensures Step(Exec(Step, Init(readers, writers), moves), m).Some?
  {
    RunKeepsInv(readers, writers, moves);
    RunKeepsThreads(readers, writers, moves);
    var s := Exec(Step, Init(readers, writers), moves);
    if s.w.acquire < s.w.Total() {
      var wm := BusyWriter(s);
      m := OfWriter(wm);
    } else if s.writeSem > 0 {
      m := OfWriter(Acquire);
    } else {
      var rm := BusyReader(s);
      m := OfReader(rm);
    }
  }

  lemma BusyWriter(s: State) returns (m: WriterMove)
    requires Inv(s) && s.w.acquire < s.w.Total()
    ensures WriterStep(s, m).Some? && m != Acquire
  {
    m := if s.w.store > 0 then Store('h')
         else if s.w.bump > 0 then Bump
         else if s.w.show > 0 then Show
         else if s.w.release > 0 then Release
         else if s.w.testFlag > 0 then TestFlag
         else if s.w.postData > 0 then PostData
         else ClearFlag;
  }

  /** When the readers hold the write lock and no writer is under way, a reader can move:
      none of them can be waiting for data, and the two other locks are never both busy. */
  lemma BusyReader(s: State) returns (m: ReaderMove)
    requires Inv(s) && s.writeSem == 0 && s.w.Writing() == 0
    ensures ReaderStep(s, m).Some?
  {
    m := if s.r.enter > 0 then Enter
         else if s.r.testLast > 0 then TestLast
         else if s.r.releaseWrite > 0 then ReleaseWrite
         else if s.r.testFirst > 0 then TestFirst
         else if s.r.postCount > 0 then PostCount
         else if s.r.leave > 0 then Leave
         else if s.r.postCountOut > 0 then PostCountOut
         else if s.r.reading > 0 then Reading
         else if s.r.waitCountOut > 0 then WaitCountOut
         else if s.r.testData > 0 then TestData
         else if s.r.setFlag > 0 then SetFlag
         else if s.r.lend > 0 then Lend
         else if s.r.openGate > 0 then OpenGate
         else WaitGate;
  }

  lemma UncountedKept(s: State, m: ReaderMove)
    requires ReaderStep(s, m).Some?
    ensures ReaderStep(s, m).value.r.Uncounted() + ReaderStep(s, m).value.readcount == s.r.Uncounted() + s.readcount
  {
  }

  lemma WritersKept(s: State, m: WriterMove)
    requires WriterStep(s, m).Some?
    ensures WriterStep(s, m).value.w.Total() == s.w.Total()
  {
  }

  lemma StepKeepsThreads(s: State, m: Move)
    requires Step(s, m).Some?
    ensures Step(s, m).value.r.Total() == s.r.Total() && Step(s, m).value.w.Total() == s.w.Total()
  {
    match m
    case OfReader(rm) => UncountedKept(s, rm); ReadCountKept(s, rm); ReaderLeavesWritersAlone(s, rm);
    case OfWriter(wm) => WritersKept(s, wm); WriterLeavesReadersAlone(s, wm);
  }

  lemma RunKeepsThreads(readers: nat, writers: nat, moves: seq<Move>)
    ensures var s := Exec(Step, Init(readers, writers), moves);
            s.r.Total() == readers && s.w.Total() == writers
  {
    var inv := (s: State) => s.r.Total() == readers && s.w.Total() == writers;
    forall s, m | inv(s) && Step(s, m).Some? ensures inv(Step(s, m).value) { StepKeepsThreads(s, m); }
    Invariant(Step, inv, Init(readers, writers), moves);
  }

  // ---- Without a writer.

  /** One reader has lent the write lock and sleeps, k more wait at the data gate, n have
      not come in. */
  function Waiting(n: nat, k: nat): State {
    State(1, 1, 0, 0, 0, k + 1, true, [],
          Readers(n, 0, 0, 0, 0, k, 0, 0, 0, 1, 0, 0, 0, 0, 0, 0, 0, 0), Writers(0, 0, 0, 0, 0, 0, 0, 0))
  }

  const ENTERS := [OfReader(WaitCount), OfReader(TestFirst), OfReader(WaitWrite), OfReader(Enter), OfReader(PostCount)]
  const LENDS := [OfReader(WaitGate), OfReader(TestData), OfReader(SetFlag), OfReader(Lend)]
  const FOLLOWS := [OfReader(WaitCount), OfReader(TestFirst), OfReader(Enter), OfReader(PostCount)]

  /** The first reader has come in. */
  function FirstInside(n: nat): State {
    State(1, 0, 0, 1, 0, 1, false, [],
          Readers(n, 0, 0, 0, 0, 1, 0, 0, 0, 0, 0, 0, 0, 0, 0, 0, 0, 0), Writers(0, 0, 0, 0, 0, 0, 0, 0))
  }

  lemma FirstReaderEnters(n: nat)
    ensures Leads(Step, Init(n + 1, 0), FirstInside(n))
  {
    LeadsBy(Step, Init(n + 1, 0), ENTERS, FirstInside(n));
  }

  lemma FirstReaderLends(n: nat)
    ensures Leads(Step, FirstInside(n), Waiting(n, 0))
  {
    LeadsBy(Step, FirstInside(n), LENDS, Waiting(n, 0));
  }

  lemma NextReaderWaits(n: nat, k: nat)
    ensures Leads(Step, Waiting(n + 1, k), Waiting(n, k + 1))
  {
    LeadsBy(Step, Waiting(n + 1, k), FOLLOWS, Waiting(n, k + 1));
  }

  lemma {:induction false} AllReadersWait(n: nat, k: nat)
    ensures Leads(Step, Waiting(n, k), Waiting(0, k + n))
    decreases n
  {
    if n == 0 {
      LeadsNowhere(Step, Waiting(0, k));
    } else {
      NextReaderWaits(n - 1, k);
      AllReadersWait(n - 1, k + 1);
      LeadsOn(Step, Waiting(n, k), Waiting(n - 1, k + 1), Waiting(0, k + n));
    }
  }

  /** Nobody can execute its next statement. */
  ghost predicate Stopped(s: State) { forall m :: Step(s, m).None? }

  lemma WaitingStops(k: nat)
    ensures Stopped(Waiting(0, k))
  {
  }

  /** Some schedule leads to where nobody can. */
  ghost predicate CanStop(s: State) { exists n :: Leads(Step, s, n) && Stopped(n) }

  /** Without a writer the first reader lends the lock and sleeps, the others wait for it
      at the gate. */
  lemma WriterlessStops(readers: nat) returns (n: State)
    ensures Leads(Step, Init(readers, 0), n) && Stopped(n)
  {
    if readers == 0 {
      n := Init(0, 0);
      LeadsNowhere(Step, n);
    } else {
      var k := readers - 1;
      n := Waiting(0, k);
      FirstReaderEnters(k);
      FirstReaderLends(k);
      LeadsOn(Step, Init(readers, 0), FirstInside(k), Waiting(k, 0));
      AllReadersWait(k, 0);
      LeadsOn(Step, Init(readers, 0), Waiting(k, 0), n);
      WaitingStops(k);
    }
  }

  /** The program can come to a stop exactly when it has no writer, however many readers
      there are. */
  lemma StopsExactly(readers: nat, writers: nat)
    ensures CanStop(Init(readers, writers)) <==> writers == 0
  {
    if writers > 0 {
      forall n | Leads(Step, Init(readers, writers), n) ensures !Stopped(n) {
        var moves: seq<Move> :| Exec(Step, Init(readers, writers), moves) == n;
        var m := Progress(readers, writers, moves);
      }
    } else {
      var n := WriterlessStops(readers);
    }
  }

  // ---- With a writer no reader is trapped.

  // How many moves the readers are away from the end of each part of `reader`.
  function ToLeave(r: Readers): nat {
    5 * r.waitCountOut + 4 * r.leave + 3 * r.testLast + 2 * r.releaseWrite + r.postCountOut
  }

  function ToEnter(r: Readers): nat { 5 * r.waitCount + 4 * r.testFirst + 3 * r.waitWrite + 2 * r.enter + r.postCount }

  function ToPass(r: Readers): nat {
    7 * r.waitGate + 6 * r.testData + 5 * r.setFlag + 4 * r.lend + 3 * r.awaitData + 2 * r.reclaim + r.openGate
  }

  /** The readers have come nearer to reading, all together. */
  predicate Nearer(n: Readers, r: Readers) {
    || ToLeave(n) < ToLeave(r)
    || (ToLeave(n) == ToLeave(r) && ToEnter(n) < ToEnter(r))
    || (ToLeave(n) == ToLeave(r) && ToEnter(n) == ToEnter(r) && ToPass(n) < ToPass(r))
  }

  /** How many moves the writers under way have left. */
  function ToAcquire(w: Writers): nat {
    7 * w.store + 6 * w.bump + 5 * w.show + 4 * w.release + 3 * w.testFlag + 2 * w.postData + w.clearFlag
  }

  /** How far the first piece of data is away. */
  function ToData(s: State): nat { if s.datasize > 0 then 0 else if s.w.Writing() > 0 then 1 else 2 }

  lemma ReaderGetsNearer(s: State, m: ReaderMove)
    requires s.r.reading == 0 && ReaderStep(s, m).Some?
    ensures Nearer(ReaderStep(s, m).value.r, s.r)
  {
    if ComingIn(m) { ComesIn(s, m); } else if AtTheGate(m) { PassesGate(s, m); } else { GoesOut(s, m); }
  }

  lemma ComesIn(s: State, m: ReaderMove)
    requires ReaderStep(s, m).Some? && ComingIn(m)
    ensures var n := ReaderStep(s, m).value.r; ToLeave(n) == ToLeave(s.r) && ToEnter(n) < ToEnter(s.r)
  {
  }

  lemma PassesGate(s: State, m: ReaderMove)
    requires ReaderStep(s, m).Some? && AtTheGate(m)
    ensures var n := ReaderStep(s, m).value.r;
            ToLeave(n) == ToLeave(s.r) && ToEnter(n) == ToEnter(s.r) && ToPass(n) < ToPass(s.r)
  {
  }

  lemma GoesOut(s: State, m: ReaderMove)
    requires ReaderStep(s, m).Some? && !ComingIn(m) && !AtTheGate(m) && m != Reading
    ensures ToLeave(ReaderStep(s, m).value.r) < ToLeave(s.r)
  {
  }

  lemma WriterGetsNearer(s: State, m: WriterMove)
    requires Inv(s) && WriterStep(s, m).Some? && m != Acquire
    ensures var n := WriterStep(s, m).value;
            n.r == s.r && (ToData(n) < ToData(s) || (ToData(n) == ToData(s) && ToAcquire(n.w) < ToAcquire(s.w)))
  {
  }

  /** Once there is data and the writers are out of the way, a reader can move. */
  lemma ReaderGoesOn(s: State) returns (m: ReaderMove)
    requires Inv(s) && s.datasize > 0 && s.w.acquire == s.w.Total() && s.r.Total() > 0
    ensures ReaderStep(s, m).Some?
  {
    m := if s.r.enter > 0 then Enter
         else if s.r.testLast > 0 then TestLast
         else if s.r.releaseWrite > 0 then ReleaseWrite
         else if s.r.testFirst > 0 then TestFirst
         else if s.r.postCount > 0 then PostCount
         else if s.r.leave > 0 then Leave
         else if s.r.postCountOut > 0 then PostCountOut
         else if s.r.reading > 0 then Reading
         else if s.r.testData > 0 then TestData
         else if s.r.setFlag > 0 then SetFlag
         else if s.r.lend > 0 then Lend
         else if s.r.awaitData > 0 then AwaitData
         else if s.r.reclaim > 0 then Reclaim
         else if s.r.openGate > 0 then OpenGate
         else if s.r.waitWrite > 0 then WaitWrite
         else if s.r.waitGate > 0 then WaitGate
         else if s.r.waitCountOut > 0 then WaitCountOut
         else WaitCount;
  }

  /** A move on the way to a reader that reads. */
  lemma Onwards(s: State) returns (m: Move)
    requires Inv(s) && s.r.Total() > 0 && s.w.Total() > 0 && s.r.reading == 0
    ensures Step(s, m).Some?
    ensures var n := Step(s, m).value;
            || ToData(n) < ToData(s)
            || (ToData(n) == ToData(s) && Nearer(n.r, s.r))
            || (ToData(n) == ToData(s) && n.r == s.r && ToAcquire(n.w) < ToAcquire(s.w))
  {
    if s.w.acquire < s.w.Total() {
      var wm := BusyWriter(s);
      m := OfWriter(wm);
      WriterGetsNearer(s, wm);
    } else if s.datasize == 0 && s.writeSem > 0 {
      m := OfWriter(Acquire);
    } else {
      var rm;
      if s.datasize > 0 { rm := ReaderGoesOn(s); } else { rm := BusyReader(s); }
      m := OfReader(rm);
      ReaderGetsNearer(s, rm);
      ReaderLeavesWritersAlone(s, rm);
    }
  }

  lemma {:induction false} ReadersGetThere(s: State) returns (moves: seq<Move>)
    requires Inv(s) && s.r.Total() > 0 && s.w.Total() > 0
    ensures Exec(Step, s, moves).r.reading > 0
    decreases ToData(s), ToLeave(s.r), ToEnter(s.r), ToPass(s.r), ToAcquire(s.w)
  {
    moves := [];
    if s.r.reading == 0 {
      var m := Onwards(s);
      StepKeepsInv(s, m);
      StepKeepsThreads(s, m);
      var rest := ReadersGetThere(Step(s, m).value);
      moves := [m] + rest;
    }
  }

  /** With a writer no reader is trapped: every reachable state has a continuation in
      which a reader gets to read. */
  lemma ReadersCanAlwaysRead(readers: nat, writers: nat, moves: seq<Move>)
    requires readers > 0 && writers > 0
    ensures exists more: seq<Move> :: Exec(Step, Init(readers, writers), moves + more).r.reading > 0
  {
    RunKeepsInv(readers, writers, moves);
    RunKeepsThreads(readers, writers, moves);
    var more := ReadersGetThere(Exec(Step, Init(readers, writers), moves));
    ExecConcat(Step, Init(readers, writers), moves, more);
  }
}
