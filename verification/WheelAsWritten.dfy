/** What timer/timer_wheel/timer_wheel.cpp does as written where WheelSpec follows what it
    means: the slot of lines 23 and 26, the wheel that never turns, the dereference in
    line 46; and exactly when that is right all the same. */
module WheelAsWritten {
  import opened Runs
  import opened WheelSpec

  /** Lines 19-27. */
  function Slot(n: nat, cur: nat, ticks: nat): nat
    requires n > 0
  {
    if ticks / n < 1 then cur + (cur + ticks) % n else cur + ticks % n
  }

  lemma Small(a: nat, n: nat)
    requires n > 0
    ensures a < n ==> a % n == a && a / n == 0
    ensures n <= a < n + n ==> a % n == a - n && a / n == 1
  {
    if a < n { Unique(a, 0, a, n); } else if a < n + n { Unique(a, 1, a - n, n); }
  }

  /** The written slot is the meant one exactly when the wheel is at slot 0, or when the
      timer is a round away or more and its slot does not lie past the end. */
  lemma SlotIsRightExactly(n: nat, cur: nat, ticks: nat)
    requires cur < n
    ensures Slot(n, cur, ticks) == (cur + ticks) % n <==> cur == 0 || (ticks >= n && cur + ticks % n < n)
    ensures Slot(n, cur, ticks) >= n <==>
            if ticks < n then cur + (cur + ticks) % n >= n else cur + ticks % n >= n
  {
    var q, r := ticks / n, ticks % n;
    assert ticks == q * n + r;
    if ticks < n { Small(ticks, n); }
    if q == 0 { assert ticks < n; }
    if q < 0 { AtLeast(q, n); }
    if ticks >= n && q > 0 { AtLeast(q, n); }
    Multiples(cur + r, q, n);
    assert (cur + ticks) % n == (cur + r) % n;
    Small(cur + r, n);
  }

  /** k calls of tick as written, which leave `_cur` where it is. */
  function StandFor<T>(w: Wheel<T>, k: nat): (r: Wheel<T>)
    requires WellFormed(w)
    ensures WellFormed(r) && |r.buckets| == |w.buckets| && r.cur == w.cur
  {
    if k == 0 then w else Stand(StandFor(w, k - 1))
  }

  /** The timer is called back by the call of tick after k others. */
  ghost predicate FiresAfter<T>(w: Wheel<T>, k: nat, id: T)
    requires WellFormed(w)
  {
    id in Fired(StandFor(w, k).buckets[w.cur])
  }

  lemma {:induction false} StandingNodes<T>(w: Wheel<T>, k: nat, id: T, round: nat)
    requires WellFormed(w)
    ensures HasNode(StandFor(w, k), w.cur, id, round) <==> HasNode(w, w.cur, id, round + k)
  {
    if k > 0 {
      StandingNodes(w, k - 1, id, round + 1);
      BucketTick(StandFor(w, k - 1).buckets[w.cur], id);
    }
  }

  /** A wheel that stands still calls back the timers of the current slot, after as many
      ticks as they have rounds, and no others. */
  lemma StandingFires<T>(w: Wheel<T>, k: nat, id: T)
    requires WellFormed(w)
    ensures FiresAfter(w, k, id) <==> HasNode(w, w.cur, id, k)
  {
    StandingNodes(w, k, id, 0);
    BucketTick(StandFor(w, k).buckets[w.cur], id);
  }

  /** As written `_cur` stays 0.  A new timer then fires on the tick it asks for, and only
      then, exactly when that is the next one or the wheel has a single slot. */
  lemma StandingIsRightExactly<T(!new)>(w: Wheel<T>, id: T, timeout: nat)
    requires WellFormed(w) && w.cur == 0 && forall s: nat, a: nat :: !HasNode(w, s, id, a)
    ensures var ticks := Ticks(timeout, w.si);
            (forall k: nat :: FiresAfter(Add(w, id, timeout), k, id) <==> k == ticks)
            <==> ticks == 0 || |w.buckets| == 1
  {
    var v, n, ticks := Add(w, id, timeout), |w.buckets|, Ticks(timeout, w.si);
    forall k: nat ensures FiresAfter(v, k, id) <==> ticks % n == 0 && k == ticks / n {
      StandingFires(v, k, id);
      AddPlaces(w, id, timeout, 0, id, k);
      assert !HasNode(w, 0, id, k);
    }
    Rounds(ticks, n);
    assert FiresAfter(v, ticks, id) <==> ticks % n == 0 && ticks == ticks / n;
  }

  lemma Rounds(ticks: nat, n: nat)
    requires n > 0
    ensures ticks % n == 0 && ticks == ticks / n <==> ticks == 0 || n == 1
  {
    if ticks == 0 { Small(0, n); }
    if ticks > 0 && n > 1 { Grows(ticks, n - 1); }
    assert ticks * n == ticks + ticks * (n - 1);
    assert ticks == (ticks / n) * n + ticks % n;
  }

  /** Lines 61-76 with line 46 as written, over a bucket of which `kept` has been passed:
      None when the bucket's last timer goes and line 46 dereferences a null head. */
  function TickBucket<T>(kept: seq<Node<T>>, rest: seq<Node<T>>): Option<seq<Node<T>>>
    decreases |rest|
  {
    if rest == [] then Some(kept)
    else if rest[0].round > 0 then TickBucket(kept + [Node(rest[0].id, rest[0].round - 1)], rest[1..])
    else if kept == [] && |rest| == 1 then None
    else TickBucket(kept, rest[1..])
  }

  /** The written tick fails exactly when it would call back every timer of a bucket that
      is not empty; otherwise it does what is meant. */
  lemma {:induction false} TickFailsExactly<T>(kept: seq<Node<T>>, rest: seq<Node<T>>)
    ensures TickBucket(kept, rest).None? <==> kept == [] && rest != [] && Kept(rest) == []
    ensures TickBucket(kept, rest).Some? ==> TickBucket(kept, rest).value == kept + Kept(rest)
    decreases |rest|
  {
    if rest == [] {
    } else if rest[0].round > 0 {
      var node := Node(rest[0].id, rest[0].round - 1);
      TickFailsExactly(kept + [node], rest[1..]);
      Associates(kept, [node], Kept(rest[1..]));
    } else if !(kept == [] && |rest| == 1) {
      TickFailsExactly(kept, rest[1..]);
    }
  }

  lemma Associates<T>(a: seq<T>, b: seq<T>, c: seq<T>)
    ensures a + b + c == a + (b + c)
  {
  }
}
