/** What a bounded buffer has handed over, and when that is last-in first-out. */
module Stacks {
  import opened Runs

  datatype Event = Put(v: int) | Got(v: int)

  /** The stack after a log; None when some value was got that was not on top. */
  function Replay(log: seq<Event>): Option<seq<int>> {
    if log == [] then Some([]) else Apply(Replay(log[..|log| - 1]), log[|log| - 1])
  }

  function Apply(stack: Option<seq<int>>, e: Event): Option<seq<int>> {
    match stack
    case None => None
    case Some(st) =>
      match e
      case Put(v) => Some(st + [v])
      case Got(v) => if st != [] && st[|st| - 1] == v then Some(st[..|st| - 1]) else None
  }

  lemma ReplayNext(log: seq<Event>, e: Event)
    ensures Replay(log + [e]) == Apply(Replay(log), e)
  {
    assert (log + [e])[..|log|] == log;
  }

  lemma TopTaken(log: seq<Event>, st: seq<int>, v: int)
    requires Replay(log) == Some(st) && st != [] && st[|st| - 1] == v
    ensures Replay(log + [Got(v)]) == Some(st[..|st| - 1])
  {
    ReplayNext(log, Got(v));
  }

  /** The values put into the buffer, and those got out of it. */
  function Values(log: seq<Event>, put: bool): multiset<int> {
    if log == [] then multiset{}
    else
      var e := log[|log| - 1];
      Values(log[..|log| - 1], put) + if e.Put? == put then multiset{e.v} else multiset{}
  }

  /** A last-in first-out log loses no value and hands out none twice. */
  lemma {:induction false} NothingLostOrDoubled(log: seq<Event>)
    requires Replay(log).Some?
    ensures Values(log, true) == Values(log, false) + multiset(Replay(log).value)
  {
    if log != [] {
      var past, e := log[..|log| - 1], log[|log| - 1];
      NothingLostOrDoubled(past);
      var st := Replay(past).value;
      if e.Got? {
        TopOff(st);
      }
    }
  }

  lemma TopOff(st: seq<int>)
    requires st != []
    ensures multiset(st) == multiset(st[..|st| - 1]) + multiset{st[|st| - 1]}
  {
    assert st == st[..|st| - 1] + [st[|st| - 1]];
  }

  // ---- What a run should hand over.

  /** What a move means for the stack. */
  datatype Operation = Push(v: int) | Pop | Nothing

  datatype Ideal = Ideal(log: seq<Event>, stack: seq<int>)

  /** What an ideal stack hands over when the moves of h are made, in their order. */
  function Play<M>(h: seq<M>, meaning: M -> Operation): Ideal {
    if h == [] then Ideal([], [])
    else
      var i := Play(h[..|h| - 1], meaning);
      match meaning(h[|h| - 1])
      case Push(v) => Ideal(i.log + [Put(v)], i.stack + [v])
      case Pop =>
        if i.stack == [] then i
        else Ideal(i.log + [Got(i.stack[|i.stack| - 1])], i.stack[..|i.stack| - 1])
      case Nothing => i
  }

  /** What a move adds to the log of a stack. */
  function Added(stack: seq<int>, o: Operation): seq<Event> {
    match o
    case Push(v) => [Put(v)]
    case Pop => if stack == [] then [] else [Got(stack[|stack| - 1])]
    case Nothing => []
  }

  /** The log is that of an ideal stack. */
  ghost predicate Ideally<M>(log: seq<Event>, h: seq<M>, meaning: M -> Operation) {
    Replay(log).Some? && Play(h, meaning) == Ideal(log, Replay(log).value)
  }

  lemma IdeallyNext<M>(log: seq<Event>, h: seq<M>, m: M, meaning: M -> Operation)
    requires Ideally(log, h, meaning)
    ensures Ideally(log + Added(Replay(log).value, meaning(m)), h + [m], meaning)
  {
    var st := Replay(log).value;
    assert (h + [m])[..|h|] == h;
    match meaning(m)
    case Push(v) => ReplayNext(log, Put(v));
    case Pop => if st != [] { TopTaken(log, st, st[|st| - 1]); } else { assert log + [] == log; }
    case Nothing => assert log + [] == log;
  }

  // ---- A stack in an array.

  /** The stack fills the slots from 0 on; the others are clear, but for `dirty` of them. */
  ghost predicate Slots(queue: seq<int>, st: seq<int>, dirty: nat) {
    && |st| <= |queue| && queue[..|st|] == st
    && forall k :: |st| + dirty <= k < |queue| ==> queue[k] == 0
  }

  lemma SlotsPush(queue: seq<int>, st: seq<int>, v: int)
    requires Slots(queue, st, 0) && |st| < |queue|
    ensures Slots(queue[|st| := v], st + [v], 0)
  {
    assert queue[|st| := v][..|st| + 1] == st + [v];
  }

  lemma SlotsPop(queue: seq<int>, st: seq<int>)
    requires Slots(queue, st, 0) && st != []
    ensures queue[|st| - 1] == st[|st| - 1] && Slots(queue, st[..|st| - 1], 1)
  {
    assert queue[..|st|][|st| - 1] == queue[|st| - 1];
    assert queue[..|st| - 1] == st[..|st| - 1];
  }

  lemma SlotsAre(queue: seq<int>, st: seq<int>)
    requires Slots(queue, st, 0)
    ensures queue == st + seq(|queue| - |st|, _ => 0)
  {
    assert queue[|st|..] == seq(|queue| - |st|, _ => 0);
    assert queue == queue[..|st|] + queue[|st|..];
  }
}
