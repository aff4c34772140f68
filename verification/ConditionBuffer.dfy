/** The bounded buffer of thread/synchronization/condition_val/producer_consumer.c, for any
    number of producers and consumers, one statement per move.  A condition wait is that
    of IEEE Std 1003.1: a sleeper may wake for no reason, and needs the mutex to go on. */
module ConditionBuffer {
  import opened Runs
  import opened Stacks

  /** How many producers are about to execute each statement of `producer`. */
  datatype Producers = Producers(
    lock: nat,    // 26
    test: nat,    // 27  count == MAX
    asleep: nat,  // 28  on empty_cond
    relock: nat,  // 28  awake again, without the mutex
    wrap: nat,    // 29  i = i % MAX
    store: nat,   // 30  queue[i] = ...
    bump: nat,    // 31  ++count
    advance: nat, // 33  ++i
    signal: nat,  // 34  full_cond
    unlock: nat   // 35
  ) {
    function Total(): nat { asleep + Awake() }
    function Awake(): nat { lock + relock + Inside() }
    function Inside(): nat { test + wrap + store + bump + advance + signal + unlock }

    /** Producers that have counted a value and not yet signalled it. */
    function ToSignal(): nat { advance + signal }
  }

  /** How many consumers are about to execute each statement of `consumer`. */
  datatype Consumers = Consumers(
    lock: nat,    // 44
    test: nat,    // 45  count == 0
    asleep: nat,  // 46  on full_cond
    relock: nat,  // 46  awake again, without the mutex
    take: nat,    // 47  reads queue[i - 1]
    clear: nat,   // 48-53  queue[--i] = 0
    drop: nat,    // 54  --count
    signal: nat,  // 55  empty_cond
    unlock: nat   // 56
  ) {
    function Total(): nat { asleep + Awake() }
    function Awake(): nat { lock + relock + Inside() }
    function Inside(): nat { test + take + clear + drop + signal + unlock }
  }

  /** `max` is MAX, 5 in the source; `log` tells which values went in and out. */
  datatype State = State(
    max: nat, locked: bool, queue: seq<int>, count: int, i: int,
    p: Producers, c: Consumers, log: seq<Event>)

  datatype ProducerMove = PLock | PTest | PWake | PRelock | Wrap | Store(v: int) | Bump | Advance | PSignal | PUnlock
  datatype ConsumerMove = CLock | CTest | CWake | CRelock | Take | Clear | Drop | CSignal | CUnlock
  datatype Move = OfProducer(pm: ProducerMove) | OfConsumer(cm: ConsumerMove)

  /** Lines 19-21 and 67-70. */
  function Init(max: nat, producers: nat, consumers: nat): State {
    State(max, false, seq(max, _ => 0), 0, 0,
          Producers(producers, 0, 0, 0, 0, 0, 0, 0, 0, 0), Consumers(consumers, 0, 0, 0, 0, 0, 0, 0, 0), [])
  }

  /** One statement; None when no thread stands there, or it is blocked.  PWake and CWake
      are the wake-ups for no reason. */
  function Step(s: State, m: Move): Option<State> {
    match m
    case OfProducer(pm) => ProducerStep(s, pm)
    case OfConsumer(cm) => ConsumerStep(s, cm)
  }

  function WakeConsumer(c: Consumers): Consumers {
    if c.asleep == 0 then c else c.(asleep := c.asleep - 1, relock := c.relock + 1)
  }

  function WakeProducer(p: Producers): Producers {
    if p.asleep == 0 then p else p.(asleep := p.asleep - 1, relock := p.relock + 1)
  }

  function ProducerStep(s: State, m: ProducerMove): Option<State> {
    var p := s.p;
    match m
    case PLock =>
      if p.lock == 0 || s.locked then None
      else Some(s.(locked := true, p := p.(lock := p.lock - 1, test := p.test + 1)))
    case PTest =>
      if p.test == 0 then None
      else if s.count == s.max then Some(s.(locked := false, p := p.(test := p.test - 1, asleep := p.asleep + 1)))
      else Some(s.(p := p.(test := p.test - 1, wrap := p.wrap + 1)))
    case PWake => if p.asleep == 0 then None else Some(s.(p := WakeProducer(p)))
    case PRelock =>
      if p.relock == 0 || s.locked then None
      else Some(s.(locked := true, p := p.(relock := p.relock - 1, test := p.test + 1)))
    case Wrap =>
      if p.wrap == 0 || s.max == 0 then None
      else Some(s.(i := s.i % s.max, p := p.(wrap := p.wrap - 1, store := p.store + 1)))
    case Store(v) =>
      if p.store == 0 || !(0 <= s.i < |s.queue|) then None
      else Some(s.(queue := s.queue[s.i := v], log := s.log + [Put(v)],
                       p := p.(store := p.store - 1, bump := p.bump + 1)))
    case Bump =>
      if p.bump == 0 then None
      else Some(s.(count := s.count + 1, p := p.(bump := p.bump - 1, advance := p.advance + 1)))
    case Advance =>
      if p.advance == 0 then None
      else Some(s.(i := s.i + 1, p := p.(advance := p.advance - 1, signal := p.signal + 1)))
    case PSignal =>
      if p.signal == 0 then None
      else Some(s.(c := WakeConsumer(s.c), p := p.(signal := p.signal - 1, unlock := p.unlock + 1)))
    case PUnlock =>
      if p.unlock == 0 then None
      else Some(s.(locked := false, p := p.(unlock := p.unlock - 1, lock := p.lock + 1)))
  }

  function ConsumerStep(s: State, m: ConsumerMove): Option<State> {
    var c := s.c;
    match m
    case CLock =>
      if c.lock == 0 || s.locked then None
      else Some(s.(locked := true, c := c.(lock := c.lock - 1, test := c.test + 1)))
    case CTest =>
      if c.test == 0 then None
      else if s.count == 0 then Some(s.(locked := false, c := c.(test := c.test - 1, asleep := c.asleep + 1)))
      else Some(s.(c := c.(test := c.test - 1, take := c.take + 1)))
    case CWake => if c.asleep == 0 then None else Some(s.(c := WakeConsumer(c)))
    case CRelock =>
      if c.relock == 0 || s.locked then None
      else Some(s.(locked := true, c := c.(relock := c.relock - 1, test := c.test + 1)))
    case Take =>
      if c.take == 0 || !(0 < s.i <= |s.queue|) then None
      else Some(s.(log := s.log + [Got(s.queue[s.i - 1])], c := c.(take := c.take - 1, clear := c.clear + 1)))
    case Clear =>
      var i := if s.i == 0 then s.max else s.i;
      if c.clear == 0 || !(0 < i <= |s.queue|) then None
      else Some(s.(queue := s.queue[i - 1 := 0], i := i - 1, c := c.(clear := c.clear - 1, drop := c.drop + 1)))
    case Drop =>
      if c.drop == 0 then None
      else Some(s.(count := s.count - 1, c := c.(drop := c.drop - 1, signal := c.signal + 1)))
    case CSignal =>
      if c.signal == 0 then None
      else Some(s.(p := WakeProducer(s.p), c := c.(signal := c.signal - 1, unlock := c.unlock + 1)))
    case CUnlock =>
      if c.unlock == 0 then None
      else Some(s.(locked := false, c := c.(unlock := c.unlock - 1, lock := c.lock + 1)))
  }

  // ---- What every move keeps.

  /** With st the stack that the log leaves: who holds the mutex, ... */
  ghost predicate Locked(s: State) { s.p.Inside() + s.c.Inside() == if s.locked then 1 else 0 }

  /** ... `count` and `i` are its size n, up to what the thread inside has yet to do, ... */
  ghost predicate Sized(s: State, n: nat) {
    && n <= s.max && s.max > 0
    && s.count == n - s.p.bump + s.c.clear + s.c.drop
    && s.i == n - s.p.bump - s.p.advance + s.c.clear
    && (s.p.wrap + s.p.store + s.c.clear > 0 ==> n < s.max)
    && (s.c.take > 0 ==> n > 0)
  }

  /** ... it fills the slots from 0 on and the others are clear, ... */
  ghost predicate Filled(s: State, st: seq<int>) { |s.queue| == s.max && Slots(s.queue, st, s.c.clear) }

  /** ... and nobody sleeps for whom there is work, unless others or a signal will see to it. */
  ghost predicate Served(s: State) {
    && (s.c.asleep > 0 ==> s.count <= s.c.Awake() + s.p.ToSignal())
    && (s.p.asleep > 0 ==> s.max - s.count <= s.p.Awake() + s.c.signal)
  }

  ghost predicate Holds(s: State, st: seq<int>) { Locked(s) && Sized(s, |st|) && Filled(s, st) && Served(s) }

  ghost predicate Inv(s: State) { Replay(s.log).Some? && Holds(s, Replay(s.log).value) }

  function Stored(st: seq<int>, m: ProducerMove): seq<int> { if m.Store? then st + [m.v] else st }

  function Removed(st: seq<int>, m: ConsumerMove): seq<int> { if m == Take && st != [] then st[..|st| - 1] else st }

  lemma ProducerKeepsLocked(s: State, m: ProducerMove)
    requires Locked(s) && ProducerStep(s, m).Some?
    ensures Locked(ProducerStep(s, m).value)
  {
  }

  lemma ProducerKeepsSized(s: State, m: ProducerMove, n: nat)
    requires Locked(s) && Sized(s, n) && ProducerStep(s, m).Some?
    ensures Sized(ProducerStep(s, m).value, if m.Store? then n + 1 else n)
  {
    if m == Wrap { Wraps(s.i, s.max); }
  }

  lemma ProducerKeepsServed(s: State, m: ProducerMove, st: seq<int>)
    requires Locked(s) && Sized(s, |st|) && Served(s) && ProducerStep(s, m).Some?
    ensures Served(ProducerStep(s, m).value)
  {
  }

  lemma ProducerKeepsFilled(s: State, m: ProducerMove, st: seq<int>)
    requires Locked(s) && Sized(s, |st|) && Filled(s, st) && ProducerStep(s, m).Some?
    ensures Filled(ProducerStep(s, m).value, Stored(st, m))
  {
    if m.Store? { SlotsPush(s.queue, st, m.v); }
  }

  lemma ProducerKeepsInv(s: State, m: ProducerMove)
    requires Inv(s) && ProducerStep(s, m).Some?
    ensures Inv(ProducerStep(s, m).value)
  {
    var st := Replay(s.log).value;
    ProducerKeepsLocked(s, m);
    ProducerKeepsSized(s, m, |st|);
    ProducerKeepsServed(s, m, st);
    ProducerKeepsFilled(s, m, st);
    if m.Store? { ReplayNext(s.log, Put(m.v)); }
  }

  lemma ConsumerKeepsLocked(s: State, m: ConsumerMove)
    requires Locked(s) && ConsumerStep(s, m).Some?
    ensures Locked(ConsumerStep(s, m).value)
  {
  }

  lemma ConsumerKeepsSized(s: State, m: ConsumerMove, n: nat)
    requires Locked(s) && Sized(s, n) && ConsumerStep(s, m).Some?
    ensures Sized(ConsumerStep(s, m).value, if m == Take && n > 0 then n - 1 else n)
  {
  }

  lemma ConsumerKeepsServed(s: State, m: ConsumerMove, st: seq<int>)
    requires Locked(s) && Sized(s, |st|) && Served(s) && ConsumerStep(s, m).Some?
    ensures Served(ConsumerStep(s, m).value)
  {
  }

  lemma ConsumerKeepsFilled(s: State, m: ConsumerMove, st: seq<int>)
    requires Locked(s) && Sized(s, |st|) && Filled(s, st) && ConsumerStep(s, m).Some?
    ensures Filled(ConsumerStep(s, m).value, Removed(st, m))
  {
    if m == Take { SlotsPop(s.queue, st); }
  }

  /** The slot that is read is the top of the stack. */
  lemma TopIsRead(s: State, st: seq<int>)
    requires Locked(s) && Sized(s, |st|) && Filled(s, st) && s.c.take > 0
    ensures st != [] && 0 < s.i <= |s.queue| && s.queue[s.i - 1] == st[|st| - 1]
  {
    SlotsPop(s.queue, st);
  }

  lemma ConsumerLog(s: State, m: ConsumerMove, st: seq<int>)
    requires Locked(s) && Sized(s, |st|) && Filled(s, st) && ConsumerStep(s, m).Some? && Replay(s.log) == Some(st)
    ensures Replay(ConsumerStep(s, m).value.log) == Some(Removed(st, m))
  {
    if m == Take {
      TopIsRead(s, st);
      TopTaken(s.log, st, s.queue[s.i - 1]);
    }
  }

  lemma ConsumerKeepsInv(s: State, m: ConsumerMove)
    requires Inv(s) && ConsumerStep(s, m).Some?
    ensures Inv(ConsumerStep(s, m).value)
  {
    var st := Replay(s.log).value;
    ConsumerKeepsLocked(s, m);
    ConsumerKeepsSized(s, m, |st|);
    ConsumerKeepsServed(s, m, st);
    ConsumerKeepsFilled(s, m, st);
    ConsumerLog(s, m, st);
  }

  lemma RunKeepsInv(max: nat, producers: nat, consumers: nat, moves: seq<Move>)
    requires max > 0
    ensures Inv(Exec(Step, Init(max, producers, consumers), moves))
  {
    forall s, m | Inv(s) && Step(s, m).Some? ensures Inv(Step(s, m).value) {
      match m
      case OfProducer(pm) => ProducerKeepsInv(s, pm);
      case OfConsumer(cm) => ConsumerKeepsInv(s, cm);
    }
    Invariant(Step, s => Inv(s), Init(max, producers, consumers), moves);
  }

  predicate Is(s: State, max: nat, producers: nat, consumers: nat) {
    s.max == max && s.p.Total() == producers && s.c.Total() == consumers
  }

  lemma ProducerKeepsThreads(s: State, m: ProducerMove)
    requires ProducerStep(s, m).Some?
    ensures Is(ProducerStep(s, m).value, s.max, s.p.Total(), s.c.Total())
  {
  }

  lemma ConsumerKeepsThreads(s: State, m: ConsumerMove)
    requires ConsumerStep(s, m).Some?
    ensures Is(ConsumerStep(s, m).value, s.max, s.p.Total(), s.c.Total())
  {
  }

  lemma RunKeepsThreads(max: nat, producers: nat, consumers: nat, moves: seq<Move>)
    ensures Is(Exec(Step, Init(max, producers, consumers), moves), max, producers, consumers)
  {
    forall s: State, m | Step(s, m).Some? ensures Is(Step(s, m).value, s.max, s.p.Total(), s.c.Total()) {
      match m
      case OfProducer(pm) => ProducerKeepsThreads(s, pm);
      case OfConsumer(cm) => ConsumerKeepsThreads(s, cm);
    }
    Invariant(Step, s => Is(s, max, producers, consumers), Init(max, producers, consumers), moves);
  }

  // ---- What goes in and out.

  /** A producer's store pushes its value, a consumer's read pops. */
  function Meaning(m: Move): Operation {
    if m.OfProducer? && m.pm.Store? then Push(m.pm.v) else if m == OfConsumer(Take) then Pop else Nothing
  }

  lemma ProducerLogs(s: State, m: ProducerMove, st: seq<int>)
    requires ProducerStep(s, m).Some?
    ensures ProducerStep(s, m).value.log == s.log + Added(st, Meaning(OfProducer(m)))
  {
  }

  lemma ConsumerLogs(s: State, m: ConsumerMove, st: seq<int>)
    requires Holds(s, st) && ConsumerStep(s, m).Some?
    ensures ConsumerStep(s, m).value.log == s.log + Added(st, Meaning(OfConsumer(m)))
  {
    if m == Take { SlotsPop(s.queue, st); }
  }

  ghost predicate Logged(s: State, h: seq<Move>) { Inv(s) && Ideally(s.log, h, Meaning) }

  lemma StepLogs(s: State, h: seq<Move>, m: Move)
    requires Logged(s, h) && Step(s, m).Some?
    ensures Logged(Step(s, m).value, h + [m])
  {
    var st := Replay(s.log).value;
    IdeallyNext(s.log, h, m, Meaning);
    match m
    case OfProducer(pm) => ProducerKeepsInv(s, pm); ProducerLogs(s, pm, st);
    case OfConsumer(cm) => ConsumerKeepsInv(s, cm); ConsumerLogs(s, cm, st);
  }

  /** In every run the values handed over are those an ideal stack hands over to the same
      stores and reads, in the same order. */
  lemma HandsOverLikeAStack(max: nat, producers: nat, consumers: nat, moves: seq<Move>)
    requires max > 0
    ensures Exec(Step, Init(max, producers, consumers), moves).log ==
            Play(Made(Step, Init(max, producers, consumers), moves), Meaning).log
  {
    var start := Init(max, producers, consumers);
    forall s, h, m | Logged(s, h) && Step(s, m).Some? ensures Logged(Step(s, m).value, h + [m]) {
      StepLogs(s, h, m);
    }
    History(Step, (s, h) => Logged(s, h), start, [], moves);
    assert [] + Made(Step, start, moves) == Made(Step, start, moves);
  }

  // ---- What that means for every run.

  /** Values come out last-in first-out, and outside the mutex the buffer is the stack and
      both `i` and `count` are its size. */
  lemma LastInFirstOut(max: nat, producers: nat, consumers: nat, moves: seq<Move>)
    requires max > 0
    ensures var s := Exec(Step, Init(max, producers, consumers), moves);
            && Replay(s.log).Some?
            && var st := Replay(s.log).value;
            && Values(s.log, true) == Values(s.log, false) + multiset(st)
            && |st| <= max
            && (!s.locked ==> s.queue == st + seq(max - |st|, _ => 0) && s.i == s.count == |st|)
  {
    RunKeepsInv(max, producers, consumers, moves);
    RunKeepsThreads(max, producers, consumers, moves);
    var s := Exec(Step, Init(max, producers, consumers), moves);
    NothingLostOrDoubled(s.log);
    if !s.locked { BufferIsStack(s, Replay(s.log).value); }
  }

  lemma BufferIsStack(s: State, st: seq<int>)
    requires Holds(s, st) && !s.locked
    ensures s.queue == st + seq(s.max - |st|, _ => 0) && s.i == s.count == |st|
  {
    SlotsAre(s.queue, st);
  }

  /** The modulus of line 29 and the zero branch of lines 48-51 never change anything. */
  lemma WrapsNeverMatter(max: nat, producers: nat, consumers: nat, moves: seq<Move>)
    requires max > 0
    ensures var s := Exec(Step, Init(max, producers, consumers), moves);
            (s.p.wrap > 0 ==> s.i % max == s.i) && (s.c.clear > 0 ==> s.i != 0)
  {
    RunKeepsInv(max, producers, consumers, moves);
    RunKeepsThreads(max, producers, consumers, moves);
    var s := Exec(Step, Init(max, producers, consumers), moves);
    if s.p.wrap > 0 { Wraps(s.i, max); }
  }

  /** Despite single signals, no value waits with every consumer asleep and no signal on
      the way, and no room with every producer asleep; so never does everybody sleep. */
  lemma NotEverybodySleeps(max: nat, producers: nat, consumers: nat, moves: seq<Move>)
    requires max > 0
    ensures var s := Exec(Step, Init(max, producers, consumers), moves);
            && (0 < consumers == s.c.asleep ==> s.count <= s.p.ToSignal())
            && (0 < producers == s.p.asleep ==> max - s.count <= s.c.signal)
            && (producers > 0 && consumers > 0 ==> s.p.Awake() + s.c.Awake() > 0)
  {
    RunKeepsInv(max, producers, consumers, moves);
    RunKeepsThreads(max, producers, consumers, moves);
  }

  // ---- Progress.

  /** A wake-up for no reason. */
  predicate Spurious(m: Move) { m == OfProducer(PWake) || m == OfConsumer(CWake) }

  lemma ProducerGoesOn(s: State, st: seq<int>) returns (m: ProducerMove)
    requires Holds(s, st) && (s.p.Inside() > 0 || (s.p.Awake() > 0 && !s.locked))
    ensures m != PWake && ProducerStep(s, m).Some?
  {
    var p := s.p;
    m := if p.test > 0 then PTest else if p.wrap > 0 then Wrap else if p.store > 0 then Store(1)
         else if p.bump > 0 then Bump else if p.advance > 0 then Advance else if p.signal > 0 then PSignal
         else if p.unlock > 0 then PUnlock else if p.lock > 0 then PLock else PRelock;
  }

  lemma ConsumerGoesOn(s: State, st: seq<int>) returns (m: ConsumerMove)
    requires Holds(s, st) && (s.c.Inside() > 0 || (s.c.Awake() > 0 && !s.locked))
    ensures m != CWake && ConsumerStep(s, m).Some?
  {
    var c := s.c;
    m := if c.test > 0 then CTest else if c.take > 0 then Take else if c.clear > 0 then Clear
         else if c.drop > 0 then Drop else if c.signal > 0 then CSignal
         else if c.unlock > 0 then CUnlock else if c.lock > 0 then CLock else CRelock;
  }

  /** Nothing but a wake-up for no reason can happen exactly when everybody sleeps, which
      needs a buffer that is full with no consumer, or empty with no producer. */
  lemma StuckExactly(s: State)
    requires Inv(s) && s.p.Total() + s.c.Total() > 0
    ensures (forall m :: !Spurious(m) ==> Step(s, m).None?) <==> s.p.Awake() + s.c.Awake() == 0
    ensures s.p.Awake() + s.c.Awake() == 0 ==>
            (s.c.Total() == 0 && s.count == s.max) || (s.p.Total() == 0 && s.count == 0)
  {
    var st := Replay(s.log).value;
    if s.p.Inside() > 0 || (s.p.Awake() > 0 && !s.locked) {
      var m := ProducerGoesOn(s, st);
      assert Step(s, OfProducer(m)).Some?;
    } else if s.c.Awake() > 0 {
      var m := ConsumerGoesOn(s, st);
      assert Step(s, OfConsumer(m)).Some?;
    } else {
      forall m | !Spurious(m) ensures Step(s, m).None? { SleepersStay(s, m); }
    }
  }

  lemma SleepersStay(s: State, m: Move)
    requires s.p.Awake() + s.c.Awake() == 0 && !Spurious(m)
    ensures Step(s, m).None?
  {
  }
}
