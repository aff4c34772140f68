/** The hashed timer wheel of timer/timer_wheel/timer_wheel.{h,cpp} as a value, and the
    flat bag of countdowns it stands for. */
module WheelSpec {
  datatype Node<T> = Node(id: T, round: nat)

  /** `_cur`, `SI` and the buckets; `_n` is |buckets|. */
  datatype Wheel<T> = Wheel(cur: nat, si: nat, buckets: seq<seq<Node<T>>>)

  ghost predicate WellFormed<T>(w: Wheel<T>) { w.cur < |w.buckets| && w.si > 0 }

  /** How many ticks pass before the tick that fires a timer. */
  function Remaining(n: nat, cur: nat, slot: nat, round: nat): int
    requires n > 0
  {
    round * n + (slot - cur) % n
  }

  /** Lines 14-18. */
  function Ticks(timeout: int, si: nat): (ticks: nat)
    requires timeout >= 0 && si > 0
    ensures ticks * si <= timeout < (ticks + 1) * si
  {
    if timeout < si then 0 else timeout / si
  }

  /** Lines 10-37 with slot (_cur + ticks) % _n; what lines 23 and 26 compute instead is
      WheelAsWritten.Slot. */
  function Add<T>(w: Wheel<T>, id: T, timeout: int): (r: Wheel<T>)
    requires WellFormed(w)
    ensures WellFormed(r) && |r.buckets| == |w.buckets|
  {
    if timeout < 0 then w else
    var ticks := Ticks(timeout, w.si);
    var slot := (w.cur + ticks) % |w.buckets|;
    w.(buckets := w.buckets[slot := [Node(id, ticks / |w.buckets|)] + w.buckets[slot]])
  }

  /** Lines 39-54 for position i of a bucket. */
  function Delete<T>(w: Wheel<T>, slot: nat, i: nat): (r: Wheel<T>)
    requires WellFormed(w) && slot < |w.buckets| && i < |w.buckets[slot]|
    ensures WellFormed(r) && |r.buckets| == |w.buckets|
  {
    w.(buckets := w.buckets[slot := w.buckets[slot][..i] + w.buckets[slot][i + 1..]])
  }

  /** The timers of a bucket that fire now, in order. */
  function Fired<T>(b: seq<Node<T>>): seq<T> {
    if b == [] then [] else (if b[0].round == 0 then [b[0].id] else []) + Fired(b[1..])
  }

  /** The timers of a bucket that stay, one round less to go. */
  function Kept<T>(b: seq<Node<T>>): seq<Node<T>> {
    if b == [] then [] else (if b[0].round == 0 then [] else [Node(b[0].id, b[0].round - 1)]) + Kept(b[1..])
  }

  /** Lines 61-76: the wheel stands still. */
  function Stand<T>(w: Wheel<T>): (r: Wheel<T>)
    requires WellFormed(w)
    ensures WellFormed(r) && |r.buckets| == |w.buckets|
  {
    w.(buckets := w.buckets[w.cur := Kept(w.buckets[w.cur])])
  }

  /** Lines 61-76, and the turn by one slot that lines 61-76 leave out. */
  function Tick<T>(w: Wheel<T>): (r: Wheel<T>)
    requires WellFormed(w)
    ensures WellFormed(r) && |r.buckets| == |w.buckets|
  {
    Stand(w).(cur := (w.cur + 1) % |w.buckets|)
  }

  // ---- The flat bag.

  /** Timer id has r ticks to go. */
  ghost predicate Waits<T>(w: Wheel<T>, id: T, r: int)
    requires WellFormed(w)
  {
    exists slot, round :: HasNode(w, slot, id, round) && Remaining(|w.buckets|, w.cur, slot, round) == r
  }

  ghost predicate HasNode<T>(w: Wheel<T>, slot: nat, id: T, round: nat) {
    slot < |w.buckets| && Node(id, round) in w.buckets[slot]
  }

  // ---- Arithmetic of slots and rounds.

  lemma {:induction false} Multiples(a: int, k: nat, n: nat)
    requires n > 0
    ensures (a + k * n) % n == a % n
    decreases k
  {
    if k > 0 {
      Multiples(a, k - 1, n);
      assert a + k * n == (a + (k - 1) * n) + n;
      OneMore(a + (k - 1) * n, n);
    }
  }

  lemma OneMore(a: int, n: nat)
    requires n > 0
    ensures (a + n) % n == a % n
  {
    var q, r := a / n, a % n;
    assert a + n == (q + 1) * n + r;
    Unique(a + n, q + 1, r, n);
  }

  lemma AtLeast(d: int, n: int)
    requires n > 0
    ensures d > 0 ==> d * n >= n
    ensures d < 0 ==> d * n <= -n
  {
    if d > 0 { Grows(d, n); }
    if d < 0 {
      Grows(-d, n);
      assert (-d) * n == -(d * n);
    }
  }

  lemma {:induction false} Grows(d: nat, n: int)
    requires n > 0 && d > 0
    ensures d * n >= n
  {
    if d > 1 {
      Grows(d - 1, n);
      assert d * n == (d - 1) * n + n;
    }
  }

  lemma Unique(a: int, q: int, r: int, n: nat)
    requires n > 0 && 0 <= r < n && a == q * n + r
    ensures a % n == r && a / n == q
  {
    var d := a / n - q;
    assert d * n == r - a % n;
    AtLeast(d, n);
  }

  /** A new timer is exactly `ticks` ticks away. */
  lemma NewTimerIsExact(n: nat, cur: nat, ticks: nat)
    requires cur < n
    ensures Remaining(n, cur, (cur + ticks) % n, ticks / n) == ticks
  {
    var q, r := ticks / n, ticks % n;
    assert ticks == q * n + r;
    Multiples(cur + r, q, n);
    assert (cur + ticks) % n == (cur + r) % n;
    if cur + r < n {
      Unique(cur + r, 0, cur + r, n);
      Unique(r, 0, r, n);
    } else {
      Unique(cur + r, 1, cur + r - n, n);
      Unique(r - n, -1, r, n);
    }
  }

  /** A turn by one slot brings a timer one tick nearer: in another slot by the turn
      alone, in the current slot by taking one round. */
  lemma TurnIsExact(n: nat, cur: nat, slot: nat, round: nat)
    requires cur < n && slot < n
    ensures slot != cur ==> Remaining(n, (cur + 1) % n, slot, round) == Remaining(n, cur, slot, round) - 1
    ensures slot == cur && round > 0 ==>
              Remaining(n, (cur + 1) % n, slot, round - 1) == Remaining(n, cur, slot, round) - 1
    ensures Remaining(n, cur, slot, round) >= 0
    ensures Remaining(n, cur, slot, round) == 0 <==> slot == cur && round == 0
  {
    if cur + 1 < n { Unique(cur + 1, 0, cur + 1, n); } else { Unique(cur + 1, 1, 0, n); }
    var next := if cur + 1 < n then cur + 1 else 0;
    Distance(n, cur, slot);
    Distance(n, next, slot);
    assert round > 0 ==> round * n == (round - 1) * n + n;
    assert round * n >= 0 && (round > 0 ==> round * n >= n);
  }

  lemma Distance(n: nat, cur: nat, slot: nat)
    requires cur < n && slot < n
    ensures (slot - cur) % n == if slot >= cur then slot - cur else slot - cur + n
  {
    if slot >= cur { Unique(slot - cur, 0, slot - cur, n); } else { Unique(slot - cur, -1, slot - cur + n, n); }
  }

  // ---- The wheel refines the bag.

  lemma AddPlaces<T>(w: Wheel<T>, id: T, timeout: int, s: nat, x: T, a: nat)
    requires WellFormed(w) && timeout >= 0
    ensures var ticks := Ticks(timeout, w.si);
            HasNode(Add(w, id, timeout), s, x, a) <==>
            HasNode(w, s, x, a) || (s == (w.cur + ticks) % |w.buckets| && x == id && a == ticks / |w.buckets|)
  {
    var slot := (w.cur + Ticks(timeout, w.si)) % |w.buckets|;
    assert Add(w, id, timeout).buckets[slot] == [Node(id, Ticks(timeout, w.si) / |w.buckets|)] + w.buckets[slot];
  }

  /** Adding puts one timer into the bag, timeout / SI ticks away, and changes no other. */
  lemma AddRefines<T>(w: Wheel<T>, id: T, timeout: int, x: T, r: int)
    requires WellFormed(w)
    ensures Waits(Add(w, id, timeout), x, r) <==>
              Waits(w, x, r) || (timeout >= 0 && x == id && r == Ticks(timeout, w.si))
  {
    if timeout >= 0 {
      var ticks := Ticks(timeout, w.si);
      NewTimerIsExact(|w.buckets|, w.cur, ticks);
      forall s: nat, a: nat { AddPlaces(w, id, timeout, s, x, a); }
      assert x == id ==> HasNode(Add(w, id, timeout), (w.cur + ticks) % |w.buckets|, x, ticks / |w.buckets|);
    }
  }

  lemma {:induction false} BucketTick<T>(b: seq<Node<T>>, id: T)
    ensures id in Fired(b) <==> Node(id, 0) in b
    ensures forall round: nat :: Node(id, round) in Kept(b) <==> Node(id, round + 1) in b
  {
    if b != [] {
      BucketTick(b[1..], id);
      assert b == [b[0]] + b[1..];
    }
  }

  /** A tick fires exactly the timers at zero ... */
  lemma TickFires<T>(w: Wheel<T>, id: T)
    requires WellFormed(w)
    ensures id in Fired(w.buckets[w.cur]) <==> Waits(w, id, 0)
  {
    BucketTick(w.buckets[w.cur], id);
    forall slot, round | HasNode(w, slot, id, round) {
      TurnIsExact(|w.buckets|, w.cur, slot, round);
    }
    if Node(id, 0) in w.buckets[w.cur] {
      assert HasNode(w, w.cur, id, 0);
      TurnIsExact(|w.buckets|, w.cur, w.cur, 0);
    }
  }

  /** ... and lowers every other by exactly one. */
  lemma TickRefines<T>(w: Wheel<T>, id: T, r: int)
    requires WellFormed(w)
    ensures Waits(Tick(w), id, r) <==> r >= 0 && Waits(w, id, r + 1)
  {
    var n, size := Tick(w), |w.buckets|;
    BucketTick(w.buckets[w.cur], id);
    if Waits(n, id, r) {
      var slot, round :| HasNode(n, slot, id, round) && Remaining(size, n.cur, slot, round) == r;
      var was := if slot == w.cur then round + 1 else round;
      assert HasNode(w, slot, id, was);
      TurnIsExact(size, w.cur, slot, was);
      TurnIsExact(size, n.cur, slot, round);
    }
    if r >= 0 && Waits(w, id, r + 1) {
      var slot, round :| HasNode(w, slot, id, round) && Remaining(size, w.cur, slot, round) == r + 1;
      TurnIsExact(size, w.cur, slot, round);
      var now := if slot == w.cur then round - 1 else round;
      assert HasNode(n, slot, id, now);
    }
  }

  // ---- No timer twice.

  ghost predicate NoDuplicates<T>(b: seq<Node<T>>) { forall i, j :: 0 <= i < j < |b| ==> b[i].id != b[j].id }

  /** No timer is in the wheel twice. */
  ghost predicate Distinct<T(!new)>(w: Wheel<T>) {
    && (forall s :: 0 <= s < |w.buckets| ==> NoDuplicates(w.buckets[s]))
    && (forall s, t, id, a, b :: HasNode(w, s, id, a) && HasNode(w, t, id, b) ==> s == t)
  }

  lemma PushKeepsNoDuplicates<T>(b: seq<Node<T>>, node: Node<T>)
    requires NoDuplicates(b) && forall i :: 0 <= i < |b| ==> b[i].id != node.id
    ensures NoDuplicates([node] + b)
  {
  }

  lemma AddKeepsDistinct<T(!new)>(w: Wheel<T>, id: T, timeout: int)
    requires WellFormed(w) && Distinct(w) && forall s: nat, a: nat :: !HasNode(w, s, id, a)
    ensures Distinct(Add(w, id, timeout))
  {
    if timeout >= 0 {
      var n, ticks := Add(w, id, timeout), Ticks(timeout, w.si);
      var slot := (w.cur + ticks) % |w.buckets|;
      forall i | 0 <= i < |w.buckets[slot]| ensures w.buckets[slot][i].id != id {
        assert !HasNode(w, slot, id, w.buckets[slot][i].round);
      }
      PushKeepsNoDuplicates(w.buckets[slot], Node(id, ticks / |w.buckets|));
      forall s: nat, t: nat, x, a: nat, b: nat | HasNode(n, s, x, a) && HasNode(n, t, x, b) ensures s == t {
        AddPlaces(w, id, timeout, s, x, a);
        AddPlaces(w, id, timeout, t, x, b);
      }
    }
  }

  lemma {:induction false} KeptNoDuplicates<T>(b: seq<Node<T>>)
    requires NoDuplicates(b)
    ensures NoDuplicates(Kept(b))
  {
    if b != [] {
      KeptNoDuplicates(b[1..]);
      forall i | 0 <= i < |Kept(b[1..])| ensures Kept(b[1..])[i].id != b[0].id {
        var node := Kept(b[1..])[i];
        BucketTick(b[1..], node.id);
        assert Node(node.id, node.round) in Kept(b[1..]);
        var j :| 0 <= j < |b[1..]| && b[1..][j] == Node(node.id, node.round + 1);
      }
    }
  }

  lemma {:induction false} FiredNoDuplicates<T>(b: seq<Node<T>>)
    requires NoDuplicates(b)
    ensures forall i, j :: 0 <= i < j < |Fired(b)| ==> Fired(b)[i] != Fired(b)[j]
  {
    if b != [] {
      FiredNoDuplicates(b[1..]);
      BucketTick(b[1..], b[0].id);
      assert Node(b[0].id, 0) !in b[1..];
    }
  }

  lemma TickKeepsDistinct<T(!new)>(w: Wheel<T>)
    requires WellFormed(w) && Distinct(w)
    ensures Distinct(Tick(w))
  {
    var n := Tick(w);
    KeptNoDuplicates(w.buckets[w.cur]);
    forall s: nat, id, a: nat | HasNode(n, s, id, a) ensures HasNode(w, s, id, if s == w.cur then a + 1 else a) {
      BucketTick(w.buckets[w.cur], id);
    }
  }

  /** Deleting takes one timer out of the wheel and leaves the others where they are. */
  lemma DeleteRefines<T(!new)>(w: Wheel<T>, slot: nat, i: nat)
    requires WellFormed(w) && Distinct(w) && slot < |w.buckets| && i < |w.buckets[slot]|
    ensures Distinct(Delete(w, slot, i))
    ensures forall s, x, a :: HasNode(Delete(w, slot, i), s, x, a) <==>
              HasNode(w, s, x, a) && x != w.buckets[slot][i].id
  {
    var n, b := Delete(w, slot, i), w.buckets[slot];
    forall s: nat, x, a: nat
      ensures HasNode(n, s, x, a) <==> HasNode(w, s, x, a) && x != b[i].id
    {
      assert HasNode(w, slot, b[i].id, b[i].round);
      if s == slot && Node(x, a) in b && x != b[i].id {
        var j :| 0 <= j < |b| && b[j] == Node(x, a);
        assert n.buckets[slot][if j < i then j else j - 1] == b[j];
      }
    }
  }
}
