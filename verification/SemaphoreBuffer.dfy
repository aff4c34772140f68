/** The bounded buffer of process/semaphore/produecr_consumer/main.c, for any number of
    producers and consumers, one statement per move. */
module SemaphoreBuffer {
  import opened Runs
  import opened Stacks

  /** How many producers are about to execute each statement of `producer`. */
  datatype Producers = Producers(
    waitEmpty: nat, // 25  sem_wait(&empty_sem)
    lock: nat,      // 26
    store: nat,     // 27  queue[i] = ...
    advance: nat,   // 29  ++i
    wrap: nat,      // 30  i = i % MAX
    unlock: nat,    // 31
    post: nat       // 32  sem_post(&full_sem)
  ) {
    function Total(): nat { waitEmpty + Placing() + Placed() }
    function Inside(): nat { store + advance + wrap + unlock }

    /** Producers that hold an empty slot. */
    function Placing(): nat { lock + store }

    /** Producers that have filled a slot and still owe `full_sem` a token. */
    function Placed(): nat { advance + wrap + unlock + post }
  }

  /** How many consumers are about to execute each statement of `consumer`. */
  datatype Consumers = Consumers(
    waitFull: nat, // 41  sem_wait(&full_sem)
    lock: nat,     // 42
    unwrap: nat,   // 43  i = (i == 0 ? MAX : i)
    take: nat,     // 44  reads queue[i - 1]
    clear: nat,    // 45  queue[--i] = 0
    unlock: nat,   // 46
    post: nat      // 47  sem_post(&empty_sem)
  ) {
    function Total(): nat { waitFull + Taking() + Taken() }
    function Inside(): nat { unwrap + take + clear + unlock }

    /** Consumers that hold a full slot. */
    function Taking(): nat { lock + unwrap + take }

    /** Consumers that have had their value and still owe `empty_sem` a token. */
    function Taken(): nat { clear + unlock + post }
  }

  /** `max` is MAX, 5 in the source; `log` tells which values went in and out. */
  datatype State = State(
    max: nat, emptySem: nat, fullSem: nat, locked: bool, queue: seq<int>, i: int,
    p: Producers, c: Consumers, log: seq<Event>)

  datatype ProducerMove = WaitEmpty | PLock | Store(v: int) | Advance | Wrap | PUnlock | PostFull
  datatype ConsumerMove = WaitFull | CLock | Unwrap | Take | Clear | CUnlock | PostEmpty
  datatype Move = OfProducer(pm: ProducerMove) | OfConsumer(cm: ConsumerMove)

  /** Lines 19-20 and 56-63. */
  function Init(max: nat, producers: nat, consumers: nat): State {
    State(max, max, 0, false, seq(max, _ => 0), 0,
          Producers(producers, 0, 0, 0, 0, 0, 0), Consumers(consumers, 0, 0, 0, 0, 0, 0), [])
  }

  /** One statement; None when no thread stands there, or it is blocked. */
  function Step(s: State, m: Move): Option<State> {
    match m
    case OfProducer(pm) => ProducerStep(s, pm)
    case OfConsumer(cm) => ConsumerStep(s, cm)
  }

  function ProducerStep(s: State, m: ProducerMove): Option<State> {
    var p := s.p;
    match m
    case WaitEmpty =>
      if p.waitEmpty == 0 || s.emptySem == 0 then None
      else Some(s.(emptySem := s.emptySem - 1, p := p.(waitEmpty := p.waitEmpty - 1, lock := p.lock + 1)))
    case PLock =>
      if p.lock == 0 || s.locked then None
      else Some(s.(locked := true, p := p.(lock := p.lock - 1, store := p.store + 1)))
    case Store(v) =>
      if p.store == 0 || !(0 <= s.i < |s.queue|) then None
      else Some(s.(queue := s.queue[s.i := v], log := s.log + [Put(v)],
                       p := p.(store := p.store - 1, advance := p.advance + 1)))
    case Advance =>
      if p.advance == 0 then None
      else Some(s.(i := s.i + 1, p := p.(advance := p.advance - 1, wrap := p.wrap + 1)))
    case Wrap =>
      if p.wrap == 0 || s.max == 0 then None
      else Some(s.(i := s.i % s.max, p := p.(wrap := p.wrap - 1, unlock := p.unlock + 1)))
    case PUnlock =>
      if p.unlock == 0 then None
      else Some(s.(locked := false, p := p.(unlock := p.unlock - 1, post := p.post + 1)))
    case PostFull =>
      if p.post == 0 then None
      else Some(s.(fullSem := s.fullSem + 1, p := p.(post := p.post - 1, waitEmpty := p.waitEmpty + 1)))
  }

  function ConsumerStep(s: State, m: ConsumerMove): Option<State> {
    var c := s.c;
    match m
    case WaitFull =>
      if c.waitFull == 0 || s.fullSem == 0 then None
      else Some(s.(fullSem := s.fullSem - 1, c := c.(waitFull := c.waitFull - 1, lock := c.lock + 1)))
    case CLock =>
      if c.lock == 0 || s.locked then None
      else Some(s.(locked := true, c := c.(lock := c.lock - 1, unwrap := c.unwrap + 1)))
    case Unwrap =>
      if c.unwrap == 0 then None
      else Some(s.(i := if s.i == 0 then s.max else s.i, c := c.(unwrap := c.unwrap - 1, take := c.take + 1)))
    case Take =>
      if c.take == 0 || !(0 < s.i <= |s.queue|) then None
      else Some(s.(log := s.log + [Got(s.queue[s.i - 1])], c := c.(take := c.take - 1, clear := c.clear + 1)))
    case Clear =>
      if c.clear == 0 || !(0 < s.i <= |s.queue|) then None
      else Some(s.(queue := s.queue[s.i - 1 := 0], i := s.i - 1, c := c.(clear := c.clear - 1, unlock := c.unlock + 1)))
    case CUnlock =>
      if c.unlock == 0 then None
      else Some(s.(locked := false, c := c.(unlock := c.unlock - 1, post := c.post + 1)))
    case PostEmpty =>
      if c.post == 0 then None
      else Some(s.(emptySem := s.emptySem + 1, c := c.(post := c.post - 1, waitFull := c.waitFull + 1)))
  }

  // ---- What every move keeps.

  /** With st the stack that the log leaves: who holds the mutex, ... */
  ghost predicate Locked(s: State) { s.p.Inside() + s.c.Inside() == if s.locked then 1 else 0 }

  /** ... every full and every empty slot is a token or held by a thread, ... */
  ghost predicate Tokens(s: State, st: seq<int>) {
    && s.fullSem + s.p.Placed() + s.c.Taking() == |st|
    && s.emptySem + s.p.Placing() + s.c.Taken() == s.max - |st|
  }

  /** ... the stack fills the slots from 0 on and the others are clear, ... */
  ghost predicate Filled(s: State, st: seq<int>) { |s.queue| == s.max && Slots(s.queue, st, s.c.clear) }

  /** ... and the index names its top, up to what the thread inside has yet to do. */
  ghost predicate Index(s: State, st: seq<int>) {
    s.i == if s.p.advance > 0 then |st| - 1
           else if s.p.wrap > 0 || s.c.take > 0 then |st|
           else if s.c.clear > 0 then |st| + 1
           else if |st| == s.max then 0 else |st|
  }

  ghost predicate Holds(s: State, st: seq<int>) {
    Locked(s) && Tokens(s, st) && Filled(s, st) && Index(s, st) && s.max > 0
  }

  ghost predicate Inv(s: State) { Replay(s.log).Some? && Holds(s, Replay(s.log).value) }

  function Stored(st: seq<int>, m: ProducerMove): seq<int> { if m.Store? then st + [m.v] else st }

  function Removed(st: seq<int>, m: ConsumerMove): seq<int> { if m == Take && st != [] then st[..|st| - 1] else st }

  lemma ProducerKeepsCounts(s: State, m: ProducerMove, st: seq<int>)
    requires Locked(s) && Tokens(s, st) && ProducerStep(s, m).Some?
    ensures Locked(ProducerStep(s, m).value) && Tokens(ProducerStep(s, m).value, Stored(st, m))
  {
  }

  lemma ProducerKeepsFilled(s: State, m: ProducerMove, st: seq<int>)
    requires Holds(s, st) && ProducerStep(s, m).Some?
    ensures Filled(ProducerStep(s, m).value, Stored(st, m))
  {
    if m.Store? { SlotsPush(s.queue, st, m.v); }
  }

  lemma ProducerKeepsIndex(s: State, m: ProducerMove, st: seq<int>)
    requires Holds(s, st) && ProducerStep(s, m).Some?
    ensures Index(ProducerStep(s, m).value, Stored(st, m))
  {
    if m == Wrap { Wraps(s.i, s.max); }
  }

  lemma ProducerKeepsInv(s: State, m: ProducerMove)
    requires Inv(s) && ProducerStep(s, m).Some?
    ensures Inv(ProducerStep(s, m).value)
  {
    var st := Replay(s.log).value;
    ProducerKeepsCounts(s, m, st);
    ProducerKeepsFilled(s, m, st);
    ProducerKeepsIndex(s, m, st);
    if m.Store? { ReplayNext(s.log, Put(m.v)); }
  }

  lemma ConsumerKeepsCounts(s: State, m: ConsumerMove, st: seq<int>)
    requires Locked(s) && Tokens(s, st) && ConsumerStep(s, m).Some?
    ensures Locked(ConsumerStep(s, m).value) && Tokens(ConsumerStep(s, m).value, Removed(st, m))
  {
  }

  lemma ConsumerKeepsFilled(s: State, m: ConsumerMove, st: seq<int>)
    requires Holds(s, st) && ConsumerStep(s, m).Some?
    ensures Filled(ConsumerStep(s, m).value, Removed(st, m))
  {
    if m == Take { SlotsPop(s.queue, st); }
  }

  lemma ConsumerKeepsIndex(s: State, m: ConsumerMove, st: seq<int>)
    requires Holds(s, st) && ConsumerStep(s, m).Some?
    ensures Index(ConsumerStep(s, m).value, Removed(st, m))
  {
  }

  lemma ConsumerKeepsInv(s: State, m: ConsumerMove)
    requires Inv(s) && ConsumerStep(s, m).Some?
    ensures Inv(ConsumerStep(s, m).value)
  {
    var st := Replay(s.log).value;
    ConsumerKeepsCounts(s, m, st);
    ConsumerKeepsFilled(s, m, st);
    ConsumerKeepsIndex(s, m, st);
    ConsumerLog(s, m, st);
  }

  lemma ConsumerLog(s: State, m: ConsumerMove, st: seq<int>)
    requires Holds(s, st) && ConsumerStep(s, m).Some? && Replay(s.log) == Some(st)
    ensures Replay(ConsumerStep(s, m).value.log) == Some(Removed(st, m))
  {
    if m == Take {
      SlotsPop(s.queue, st);
      TopTaken(s.log, st, s.queue[s.i - 1]);
    }
  }

  lemma RunKeepsInv(max: nat, producers: nat, consumers: nat, moves: seq<Move>)
    requires max > 0
    ensures Inv(Exec(Step, Init(max, producers, consumers), moves))
  {
    forall s, m | Inv(s) && Step(s, m).Some? ensures Inv(Step(s, m).value) {
      match m
      case OfProducer(pm) => ProducerKeepsInv(s, pm);
      case OfConsumer(cm) => ConsumerKeepsInv(s, cm);
    }
    Invariant(Step, s => Inv(s), Init(max, producers, consumers), moves);
  }

  lemma RunKeepsThreads(max: nat, producers: nat, consumers: nat, moves: seq<Move>)
    ensures var s := Exec(Step, Init(max, producers, consumers), moves);
            s.max == max && s.p.Total() == producers && s.c.Total() == consumers
  {
    forall s: State, m | Step(s, m).Some?
      ensures var n := Step(s, m).value; n.max == s.max && n.p.Total() == s.p.Total() && n.c.Total() == s.c.Total()
    {
      StepKeepsThreads(s, m);
    }
    Invariant(Step, s => Is(s, max, producers, consumers), Init(max, producers, consumers), moves);
  }

  predicate Is(s: State, max: nat, producers: nat, consumers: nat) {
    s.max == max && s.p.Total() == producers && s.c.Total() == consumers
  }

  lemma StepKeepsThreads(s: State, m: Move)
    requires Step(s, m).Some?
    ensures var n := Step(s, m).value; Is(n, s.max, s.p.Total(), s.c.Total())
  {
    match m
    case OfProducer(pm) => ProducerKeepsThreads(s, pm);
    case OfConsumer(cm) => ConsumerKeepsThreads(s, cm);
  }

  lemma ProducerKeepsThreads(s: State, m: ProducerMove)
    requires ProducerStep(s, m).Some?
    ensures var n := ProducerStep(s, m).value; n.max == s.max && n.c == s.c && n.p.Total() == s.p.Total()
  {
  }

  lemma ConsumerKeepsThreads(s: State, m: ConsumerMove)
    requires ConsumerStep(s, m).Some?
    ensures var n := ConsumerStep(s, m).value; n.max == s.max && n.p == s.p && n.c.Total() == s.c.Total()
  {
  }

  // ---- What goes in and out.

  /** A producer's store pushes its value, a consumer's read pops. */
  function Meaning(m: Move): Operation {
    if m.OfProducer? && m.pm.Store? then Push(m.pm.v) else if m == OfConsumer(Take) then Pop else Nothing
  }

  lemma ProducerLogs(s: State, m: ProducerMove, st: seq<int>)
    requires ProducerStep(s, m).Some?
    ensures ProducerStep(s, m).value.log == s.log + Added(st, Meaning(OfProducer(m)))
  {
  }

  lemma ConsumerLogs(s: State, m: ConsumerMove, st: seq<int>)
    requires Holds(s, st) && ConsumerStep(s, m).Some?
    ensures ConsumerStep(s, m).value.log == s.log + Added(st, Meaning(OfConsumer(m)))
  {
    if m == Take { SlotsPop(s.queue, st); }
  }

  ghost predicate Logged(s: State, h: seq<Move>) { Inv(s) && Ideally(s.log, h, Meaning) }

  lemma StepLogs(s: State, h: seq<Move>, m: Move)
    requires Logged(s, h) && Step(s, m).Some?
    ensures Logged(Step(s, m).value, h + [m])
  {
    var st := Replay(s.log).value;
    IdeallyNext(s.log, h, m, Meaning);
    match m
    case OfProducer(pm) => ProducerKeepsInv(s, pm); ProducerLogs(s, pm, st);
    case OfConsumer(cm) => ConsumerKeepsInv(s, cm); ConsumerLogs(s, cm, st);
  }

  /** In every run the values handed over are those an ideal stack hands over to the same
      stores and reads, in the same order. */
  lemma HandsOverLikeAStack(max: nat, producers: nat, consumers: nat, moves: seq<Move>)
    requires max > 0
    ensures Exec(Step, Init(max, producers, consumers), moves).log ==
            Play(Made(Step, Init(max, producers, consumers), moves), Meaning).log
  {
    var start := Init(max, producers, consumers);
    forall s, h, m | Logged(s, h) && Step(s, m).Some? ensures Logged(Step(s, m).value, h + [m]) {
      StepLogs(s, h, m);
    }
    History(Step, (s, h) => Logged(s, h), start, [], moves);
    assert [] + Made(Step, start, moves) == Made(Step, start, moves);
  }

  // ---- What that means for every run.

  /** The two semaphores and the threads that hold a token account for every slot. */
  lemma TokensAddUp(max: nat, producers: nat, consumers: nat, moves: seq<Move>)
    requires max > 0
    ensures var s := Exec(Step, Init(max, producers, consumers), moves);
            s.emptySem + s.fullSem + (producers - s.p.waitEmpty) + (consumers - s.c.waitFull) == max
  {
    RunKeepsInv(max, producers, consumers, moves);
    RunKeepsThreads(max, producers, consumers, moves);
  }

  /** Values come out last-in first-out, so none is overwritten, lost or handed out twice;
      outside the mutex the buffer is the stack and the index is its size, modulo MAX:
      0 means empty as well as full. */
  lemma LastInFirstOut(max: nat, producers: nat, consumers: nat, moves: seq<Move>)
    requires max > 0
    ensures var s := Exec(Step, Init(max, producers, consumers), moves);
            && Replay(s.log).Some?
            && var st := Replay(s.log).value;
            && Values(s.log, true) == Values(s.log, false) + multiset(st)
            && |st| <= max
            && (!s.locked ==> s.queue == st + seq(max - |st|, _ => 0) && s.i == |st| % max)
  {
    RunKeepsInv(max, producers, consumers, moves);
    RunKeepsThreads(max, producers, consumers, moves);
    var s := Exec(Step, Init(max, producers, consumers), moves);
    NothingLostOrDoubled(s.log);
    var st := Replay(s.log).value;
    if !s.locked { BufferIsStack(s, st); }
  }

  lemma BufferIsStack(s: State, st: seq<int>)
    requires Holds(s, st) && !s.locked
    ensures s.queue == st + seq(s.max - |st|, _ => 0) && s.i == |st| % s.max
  {
    Wraps(|st|, s.max);
    SlotsAre(s.queue, st);
  }

  /** Everybody waits for a token that nobody will post. */
  ghost predicate NobodyCanPost(s: State) {
    || (s.c.Total() == 0 && s.p.waitEmpty == s.p.Total() && s.fullSem == s.max)
    || (s.p.Total() == 0 && s.c.waitFull == s.c.Total() && s.emptySem == s.max)
  }

  lemma ProducerGoesOn(s: State, st: seq<int>) returns (m: ProducerMove)
    requires Holds(s, st)
    requires s.p.Inside() + s.p.post > 0 || (s.p.lock > 0 && !s.locked) || (s.p.waitEmpty > 0 && s.emptySem > 0)
    ensures ProducerStep(s, m).Some?
  {
    var p := s.p;
    m := if p.store > 0 then Store(1) else if p.advance > 0 then Advance else if p.wrap > 0 then Wrap
         else if p.unlock > 0 then PUnlock else if p.post > 0 then PostFull
         else if p.lock > 0 && !s.locked then PLock else WaitEmpty;
  }

  lemma ConsumerGoesOn(s: State, st: seq<int>) returns (m: ConsumerMove)
    requires Holds(s, st)
    requires s.c.Inside() + s.c.post > 0 || (s.c.lock > 0 && !s.locked) || (s.c.waitFull > 0 && s.fullSem > 0)
    ensures ConsumerStep(s, m).Some?
  {
    var c := s.c;
    m := if c.unwrap > 0 then Unwrap else if c.take > 0 then Take else if c.clear > 0 then Clear
         else if c.unlock > 0 then CUnlock else if c.post > 0 then PostEmpty
         else if c.lock > 0 && !s.locked then CLock else WaitFull;
  }

  lemma Progress(s: State) returns (m: Move)
    requires Inv(s) && s.p.Total() + s.c.Total() > 0 && !NobodyCanPost(s)
    ensures Step(s, m).Some?
  {
    var st := Replay(s.log).value;
    if s.p.Inside() + s.p.post > 0 || (s.p.lock > 0 && !s.locked) || (s.p.waitEmpty > 0 && s.emptySem > 0) {
      var pm := ProducerGoesOn(s, st);
      m := OfProducer(pm);
    } else {
      var cm := ConsumerGoesOn(s, st);
      m := OfConsumer(cm);
    }
  }

  /** Nobody can move exactly when the buffer is full and there is no consumer, or it is
      empty and there is no producer. */
  lemma StuckExactly(s: State)
    requires Inv(s) && s.p.Total() + s.c.Total() > 0
    ensures (forall m :: Step(s, m).None?) <==> NobodyCanPost(s)
  {
    if !NobodyCanPost(s) {
      var m := Progress(s);
    } else {
      forall m ensures Step(s, m).None? { NoStep(s, m); }
    }
  }

  lemma NoStep(s: State, m: Move)
    ensures Inv(s) && NobodyCanPost(s) ==> Step(s, m).None?
  {
    match m
    case OfProducer(pm) => NoProducerStep(s, pm);
    case OfConsumer(cm) => NoConsumerStep(s, cm);
  }

  lemma NoProducerStep(s: State, m: ProducerMove)
    ensures s.p.Placing() + s.p.Placed() == 0 && (s.p.waitEmpty == 0 || s.emptySem == 0) ==> ProducerStep(s, m).None?
  {
    if s.p.Placing() + s.p.Placed() == 0 {
      NobodyInside(s.p);
      match m
      case WaitEmpty =>
      case PLock => assert s.p.lock == 0;
      case Store(v) => assert s.p.store == 0;
      case Advance => assert s.p.advance == 0;
      case Wrap => assert s.p.wrap == 0;
      case PUnlock => assert s.p.unlock == 0;
      case PostFull => assert s.p.post == 0;
    }
  }

  lemma NobodyInside(p: Producers)
    requires p.Placing() + p.Placed() == 0
    ensures p.lock == p.store == p.advance == p.wrap == p.unlock == p.post == 0
  {
  }

  lemma NoConsumerStep(s: State, m: ConsumerMove)
    ensures s.c.Taking() + s.c.Taken() == 0 && (s.c.waitFull == 0 || s.fullSem == 0) ==> ConsumerStep(s, m).None?
  {
    var c := s.c;
    if c.Taking() + c.Taken() == 0 {
      assert c.lock == 0 && c.unwrap == 0 && c.take == 0;
      assert c.clear == 0 && c.unlock == 0 && c.post == 0;
    }
  }
}
