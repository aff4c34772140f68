/** Whole runs of the linked timer wheel: the timers that its pointers hold fire when the
    countdowns of WheelRuns do. */
module LinkedWheelRuns {
  import opened Runs
  import opened WheelSpec
  import opened LinkedWheel
  import Spec = WheelRuns

  /** A bucket with each node named by its client. */
  ghost function ByName(b: seq<Node<Timer>>): (r: seq<Node<int>>)
    ensures |r| == |b| && forall i :: 0 <= i < |b| ==> r[i] == Node(b[i].id.clientData, b[i].round)
  {
    seq(|b|, i requires 0 <= i < |b| => Node(b[i].id.clientData, b[i].round))
  }

  ghost function Named(w: Wheel<Timer>): (r: Wheel<int>)
    ensures r.cur == w.cur && r.si == w.si && |r.buckets| == |w.buckets|
    ensures forall s :: 0 <= s < |w.buckets| ==> r.buckets[s] == ByName(w.buckets[s])
  {
    Wheel(w.cur, w.si, seq(|w.buckets|, s requires 0 <= s < |w.buckets| => ByName(w.buckets[s])))
  }

  lemma SameAdd(w: Wheel<Timer>, timer: Timer, timeout: int)
    requires WellFormed(w)
    ensures Named(Add(w, timer, timeout)) == Add(Named(w), timer.clientData, timeout)
  {
    if timeout >= 0 {
      var slot := (w.cur + Ticks(timeout, w.si)) % |w.buckets|;
      var node := Node(timer, Ticks(timeout, w.si) / |w.buckets|);
      assert ByName([node] + w.buckets[slot]) == [Node(timer.clientData, node.round)] + ByName(w.buckets[slot]);
    }
  }

  lemma SameDelete(w: Wheel<Timer>, slot: nat, i: nat)
    requires WellFormed(w) && slot < |w.buckets| && i < |w.buckets[slot]|
    ensures Named(Delete(w, slot, i)) == Delete(Named(w), slot, i)
  {
    var b := w.buckets[slot];
    assert ByName(b[..i] + b[i + 1..]) == ByName(b)[..i] + ByName(b)[i + 1..];
  }

  lemma {:induction false} SameFired(b: seq<Node<Timer>>)
    ensures Fired(ByName(b)) == Users(Fired(b))
  {
    if b != [] {
      SameFired(b[1..]);
      assert ByName(b)[1..] == ByName(b[1..]);
      if b[0].round == 0 {
        UsersAppend([b[0].id], Fired(b[1..]));
      } else {
        assert Fired(b) == Fired(b[1..]);
      }
    }
  }

  lemma {:induction false} SameKept(b: seq<Node<Timer>>)
    ensures Kept(ByName(b)) == ByName(Kept(b))
  {
    if b != [] {
      SameKept(b[1..]);
      assert ByName(b)[1..] == ByName(b[1..]);
      if b[0].round == 0 {
        assert Kept(b) == Kept(b[1..]);
      } else {
        NamesConcat([Node(b[0].id, b[0].round - 1)], Kept(b[1..]));
      }
    }
  }

  lemma NamesConcat(a: seq<Node<Timer>>, b: seq<Node<Timer>>)
    ensures ByName(a + b) == ByName(a) + ByName(b)
  {
  }

  lemma SameTick(w: Wheel<Timer>)
    requires WellFormed(w)
    ensures Named(Tick(w)) == Tick(Named(w))
    ensures Fired(Named(w).buckets[w.cur]) == Users(Fired(w.buckets[w.cur]))
  {
    SameFired(w.buckets[w.cur]);
    SameKept(w.buckets[w.cur]);
  }

  /** Each timer in the wheel is the one its client holds, and one that was added. */
  ghost predicate Held(w: Wheel<Timer>, timers: map<int, Timer>, due: map<int, nat>) {
    forall s, i :: 0 <= s < |w.buckets| && 0 <= i < |w.buckets[s]| ==> HeldBy(w.buckets[s][i].id, timers, due)
  }

  ghost predicate HeldBy(x: Timer, timers: map<int, Timer>, due: map<int, nat>) {
    x.clientData in timers && timers[x.clientData] == x && x.clientData in due
  }

  lemma HoldsNew(w: Wheel<Timer>, timers: map<int, Timer>, due: map<int, nat>, timer: Timer, timeout: nat, at: nat)
    requires WellFormed(w) && Held(w, timers, due) && timer.clientData !in due
    ensures Held(Add(w, timer, timeout), timers[timer.clientData := timer], due[timer.clientData := at])
  {
    var n := Add(w, timer, timeout);
    var id := timer.clientData;
    forall t, i | 0 <= t < |n.buckets| && 0 <= i < |n.buckets[t]|
      ensures HeldBy(n.buckets[t][i].id, timers[id := timer], due[id := at])
    {
      if n.buckets[t] == w.buckets[t] {
        assert HeldBy(w.buckets[t][i].id, timers, due);
      } else if i > 0 {
        assert HeldBy(w.buckets[t][i - 1].id, timers, due);
      }
    }
  }

  lemma HoldsFewer(w: Wheel<Timer>, timers: map<int, Timer>, due: map<int, nat>, slot: nat, i: nat)
    requires WellFormed(w) && Held(w, timers, due) && slot < |w.buckets| && i < |w.buckets[slot]|
    ensures Held(Delete(w, slot, i), timers, due)
  {
  }

  lemma {:induction false} KeptAreThere(b: seq<Node<Timer>>)
    ensures forall node :: node in Kept(b) ==> Node(node.id, node.round + 1) in b
  {
    if b != [] {
      KeptAreThere(b[1..]);
    }
  }

  lemma HoldsTicked(w: Wheel<Timer>, timers: map<int, Timer>, due: map<int, nat>)
    requires WellFormed(w) && Held(w, timers, due)
    ensures Held(WheelSpec.Tick(w), timers, due)
  {
    var b := w.buckets[w.cur];
    KeptAreThere(b);
    forall i | 0 <= i < |Kept(b)| ensures exists j :: 0 <= j < |b| && b[j].id == Kept(b)[i].id {
      assert Kept(b)[i] in Kept(b);
    }
  }

  /** A wheel in use: its clients' timers, when which was called back, and what has
      happened so far. */
  class Clock {
    const wheel: TimerWheel
    var timers: map<int, Timer>  // clientdata.timer
    var now: nat
    var log: seq<(int, nat)>
    ghost var abs: Spec.State

    ghost predicate Valid()
      reads this, wheel, wheel.wheel, wheel.repr
    {
      && wheel.Valid() && abs.wheel == Named(wheel.abs) && abs.now == now && abs.log == log
      && Held(wheel.abs, timers, abs.due)
    }

    constructor (n: nat, si: nat)
      requires n > 0 && si > 0
      ensures Valid() && fresh(wheel) && fresh(wheel.wheel) && wheel.repr == {}
      ensures abs == Spec.New(n, si)
    {
      wheel := new TimerWheel(n, si);
      timers, now, log := map[], 0, [];
      abs := Spec.New(n, si);
    }

    /** timer_wheel.cpp lines 10-37 for a client that has no timer yet. */
    method AddTimer(id: int, timeout: int)
      requires Valid() && Spec.Step(abs, Spec.AddTimer(id, timeout)).Some?
      modifies this, wheel, wheel.wheel, wheel.repr
      ensures Valid() && abs == Spec.Step(old(abs), Spec.AddTimer(id, timeout)).value
      ensures fresh(wheel.repr - old(wheel.repr))
    {
      ghost var due, w := abs.due, wheel.abs;
      abs := Spec.Step(abs, Spec.AddTimer(id, timeout)).value;
      var timer := wheel.AddTimer(timeout, id);
      if timer != null {
        SameAdd(w, timer, timeout);
        HoldsNew(w, timers, due, timer, timeout, abs.due[id]);
        timers := timers[id := timer];
      }
    }

    /** Lines 39-54. */
    method DeleteTimer(id: int)
      requires Valid() && Spec.Step(abs, Spec.DeleteTimer(id)).Some?
      modifies this, wheel, wheel.wheel, wheel.repr
      ensures Valid() && abs == Spec.Step(old(abs), Spec.DeleteTimer(id)).value
      ensures fresh(wheel.repr - old(wheel.repr))
    {
      ghost var slot := Spec.SlotOf(abs.wheel, id, 0);
      ghost var i := Spec.IndexIn(abs.wheel.buckets[slot], id);
      ghost var w := wheel.abs;
      assert w.buckets[slot][i].id.clientData == id;
      assert Bucket(wheel.wheel[slot], w.buckets[slot], slot) && w.buckets[slot][i].id.slot == slot;
      SameDelete(w, slot, i);
      HoldsFewer(w, timers, abs.due, slot, i);
      assert HeldBy(w.buckets[slot][i].id, timers, abs.due);
      abs := Spec.Step(abs, Spec.DeleteTimer(id)).value;
      wheel.DeleteTimer(timers[id], i);
    }

    /** Lines 61-76 and the turn. */
    method Tick()
      requires Valid() && Spec.Step(abs, Spec.TickNow).Some?
      modifies this, wheel, wheel.wheel, wheel.repr
      ensures Valid() && abs == Spec.Step(old(abs), Spec.TickNow).value
      ensures fresh(wheel.repr - old(wheel.repr))
    {
      SameTick(wheel.abs);
      HoldsTicked(wheel.abs, timers, abs.due);
      abs := Spec.Step(abs, Spec.TickNow).value;
      var fired, _ := wheel.TickAndTurn();
      log := log + Spec.Stamp(fired, now);
      now := now + 1;
    }

    method Move(m: Spec.Move)
      requires Valid() && Spec.Step(abs, m).Some?
      modifies this, wheel, wheel.wheel, wheel.repr
      ensures Valid() && abs == Spec.Step(old(abs), m).value
      ensures fresh(wheel.repr - old(wheel.repr))
    {
      match m
      case AddTimer(id, timeout) => AddTimer(id, timeout);
      case DeleteTimer(id) => DeleteTimer(id);
      case TickNow => Tick();
    }

    /** Any sequence of adds, deletes and ticks. */
    method Run(moves: seq<Spec.Move>)
      requires Valid() && Effective(Spec.Step, abs, moves)
      modifies this, wheel, wheel.wheel, wheel.repr
      ensures Valid() && abs == Exec(Spec.Step, old(abs), moves)
    {
      ghost var start := abs;
      var i := 0;
      assert moves[0..] == moves;
      while i < |moves|
        invariant Valid() && Played(start, abs, moves, i) && fresh(wheel.repr - old(wheel.repr))
      {
        NextMove(start, abs, moves, i);
        Move(moves[i]);
        i := i + 1;
      }
      assert moves[i..] == [];
    }
  }

  /** The first i moves have led from `start` to s, and the others can be made. */
  ghost predicate Played(start: Spec.State, s: Spec.State, moves: seq<Spec.Move>, i: nat) {
    && i <= |moves| && Effective(Spec.Step, s, moves[i..])
    && Exec(Spec.Step, s, moves[i..]) == Exec(Spec.Step, start, moves)
  }

  lemma NextMove(start: Spec.State, s: Spec.State, moves: seq<Spec.Move>, i: nat)
    requires i < |moves| && Played(start, s, moves, i)
    ensures Spec.Step(s, moves[i]).Some? && Played(start, Spec.Step(s, moves[i]).value, moves, i + 1)
  {
    assert moves[i..][0] == moves[i] && moves[i..][1..] == moves[i + 1..];
  }

  /** A new linked wheel calls back, over any run, each timer that is not deleted once, on
      precisely the tick its timeout asks for, and no timer before. */
  method Play(n: nat, si: nat, moves: seq<Spec.Move>) returns (log: seq<(int, nat)>)
    requires n > 0 && si > 0 && Effective(Spec.Step, Spec.New(n, si), moves)
    ensures Spec.LogIsRight(log, moves, si)
  {
    var clock := new Clock(n, si);
    clock.Run(moves);
    log := clock.log;
    Spec.FiresOnTime(n, si, moves);
    EffectiveAreMade(Spec.Step, Spec.New(n, si), moves);
  }
}
