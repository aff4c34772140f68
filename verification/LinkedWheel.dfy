/** The timer wheel of timer/timer_wheel/timer_wheel.{h,cpp} in place: an array of bucket
    heads over doubly linked nodes. */
module LinkedWheel {
  import opened WheelSpec

  class Timer {
    var round: nat
    var slot: nat
    const clientData: int
    var next: Timer?
    var pre: Timer?

    constructor (round: nat, slot: nat, clientData: int)
      ensures this.round == round && this.slot == slot && this.clientData == clientData
      ensures pre == null && next == null
    {
      this.round, this.slot, this.clientData := round, slot, clientData;
      next, pre := null, null;
    }
  }

  ghost function Nodes(b: seq<Node<Timer>>): set<Timer> {
    set i | 0 <= i < |b| :: b[i].id
  }

  /** The bucket that starts at `head` holds the timers of b with their rounds. */
  ghost predicate Bucket(head: Timer?, b: seq<Node<Timer>>, slot: nat)
    reads Nodes(b)
  {
    && head == At(b, 0)
    && (forall i {:trigger b[i].id.pre} :: 0 <= i < |b| ==> b[i].id.pre == At(b, i - 1))
    && (forall i {:trigger b[i].id.next} :: 0 <= i < |b| ==> b[i].id.next == At(b, i + 1))
    && (forall i {:trigger b[i].id.slot} :: 0 <= i < |b| ==> b[i].id.slot == slot)
    && (forall i {:trigger b[i].id.round} :: 0 <= i < |b| ==> b[i].id.round == b[i].round)
    && (forall i, j :: 0 <= i < j < |b| ==> b[i].id != b[j].id)
  }

  function At(b: seq<Node<Timer>>, i: int): Timer? {
    if 0 <= i < |b| then b[i].id else null
  }

  function NodeOrNone(timer: Timer?): set<Timer> {
    if timer == null then {} else {timer}
  }

  /** Lines 32-34: the bucket with one more timer in front. */
  method Link(head: Timer?, timer: Timer, ghost b: seq<Node<Timer>>)
    requires Bucket(head, b, timer.slot) && timer !in Nodes(b) && timer.pre == null && timer.next == null
    modifies NodeOrNone(head)`pre, timer`next
    ensures Bucket(timer, [Node(timer, timer.round)] + b, timer.slot)
  {
    if head != null {
      head.pre := timer;
      timer.next := head;
    }
  }

  /** Lines 43-52, with the null check that line 46 needs: takes node i out of its bucket
      and gives the bucket's head. */
  method Unlink(head: Timer?, timer: Timer, ghost b: seq<Node<Timer>>, ghost i: nat) returns (h: Timer?)
    requires Bucket(head, b, timer.slot) && i < |b| && b[i].id == timer
    modifies NodeOrNone(timer.pre)`next, NodeOrNone(timer.next)`pre
    ensures Bucket(h, b[..i] + b[i + 1..], timer.slot)
  {
    assert timer.pre == At(b, i - 1) && timer.next == At(b, i + 1);
    h := head;
    if timer.pre == null {
      h := timer.next;
      if h != null {
        h.pre := null;
      }
    } else {
      timer.pre.next := timer.next;
      if timer.next != null {
        timer.next.pre := timer.pre;
      }
    }
  }

  class TimerWheel {
    const n: nat
    const si: nat
    var cur: nat
    const wheel: array<Timer?>
    ghost var repr: set<Timer>
    ghost var abs: Wheel<Timer>

    ghost predicate Valid()
      reads this, wheel, repr
    {
      && WellFormed(abs) && abs.cur == cur && abs.si == si
      && wheel.Length == n == |abs.buckets|
      && (forall s :: 0 <= s < n ==> Nodes(abs.buckets[s]) <= repr && Bucket(wheel[s], abs.buckets[s], s))
    }

    /** timer_wheel.h lines 53-58, with a vector that has room for the n heads. */
    constructor (n: nat, si: nat)
      requires n > 0 && si > 0
      ensures Valid() && this.n == n && this.si == si && fresh(wheel) && repr == {}
      ensures abs == Wheel(0, si, seq(n, _ => []))
    {
      this.n, this.si, cur := n, si, 0;
      wheel := new Timer?[n](_ => null);
      abs := Wheel(0, si, seq(n, _ => []));
      repr := {};
    }

    /** The timers of the other buckets. */
    ghost function Others(slot: nat): (r: set<Timer>)
      requires Valid() && slot < n
      reads this, wheel, repr
      ensures r <= repr && forall s :: 0 <= s < n && s != slot ==> Nodes(abs.buckets[s]) <= r
      ensures Nodes(abs.buckets[slot]) !! r
    {
      assert forall s, i :: 0 <= s < n && 0 <= i < |abs.buckets[s]| ==> abs.buckets[s][i].id.slot == s;
      set s, i | 0 <= s < n && s != slot && 0 <= i < |abs.buckets[s]| :: abs.buckets[s][i].id
    }

    /** What happens in one bucket leaves the others as they are. */
    twostate lemma OthersStay(slot: nat)
      requires old(Valid()) && slot < n && old(repr) <= repr
      requires |abs.buckets| == n && forall s :: 0 <= s < n && s != slot ==> abs.buckets[s] == old(abs).buckets[s]
      requires forall s :: 0 <= s < n && s != slot ==> wheel[s] == old(wheel[s])
      requires unchanged(old(Others(slot)))
      ensures forall s :: 0 <= s < n && s != slot ==>
                Nodes(abs.buckets[s]) <= repr && Bucket(wheel[s], abs.buckets[s], s)
    {
      forall s | 0 <= s < n && s != slot ensures Bucket(wheel[s], abs.buckets[s], s) {
        assert Nodes(abs.buckets[s]) <= old(Others(slot));
        assert old(Bucket(wheel[s], abs.buckets[s], s));
      }
    }

    /** The wheel with another bucket. */
    ghost function With(slot: nat, b: seq<Node<Timer>>): Wheel<Timer>
      requires slot < |abs.buckets|
      reads this
    {
      abs.(buckets := abs.buckets[slot := b])
    }

    /** Lines 29-36. */
    method PushFront(timer: Timer)
      requires Valid() && timer !in repr && timer.slot < n && timer.pre == null && timer.next == null
      modifies this`abs, this`repr, wheel, repr`pre, timer`next
      ensures Valid() && repr == old(repr) + {timer}
      ensures abs == old(With(timer.slot, [Node(timer, timer.round)] + abs.buckets[timer.slot]))
    {
      var slot := timer.slot;
      ghost var b := [Node(timer, timer.round)] + abs.buckets[slot];
      ghost var others := Others(slot);
      assert timer !in others && NodeOrNone(wheel[slot]) !! others;
      repr := repr + {timer};
      abs := With(slot, b);
      assert Nodes(b) <= Nodes(old(abs).buckets[slot]) + {timer};
      Link(wheel[slot], timer, old(abs).buckets[slot]);
      wheel[slot] := timer;
      assert Bucket(wheel[slot], b, slot);
      OthersStay(slot);
    }

    /** Lines 10-37, with the slot that lines 23 and 26 mean. */
    method AddTimer(timeout: int, clientData: int) returns (timer: Timer?)
      requires Valid()
      modifies this`abs, this`repr, wheel, repr`pre
      ensures Valid()
      ensures timer == null <==> timeout < 0
      ensures timer == null ==> abs == old(abs) && repr == old(repr)
      ensures timer != null ==> fresh(timer) && timer.clientData == clientData && repr == old(repr) + {timer}
      ensures timer != null ==> abs == Add(old(abs), timer, timeout)
    {
      timer := null;
      if timeout < 0 {
        return;
      }
      var ticks := 0;
      if timeout >= si {
        ticks := timeout / si;
      }
      var round, slot := ticks / n, (cur + ticks) % n;
      var t := new Timer(round, slot, clientData);
      Added(abs, t, timeout, round, slot);
      PushFront(t);
      timer := t;
    }

    /** Lines 39-54, for node i of its bucket. */
    method DeleteTimer(timer: Timer?, ghost i: nat)
      requires Valid()
      requires timer != null ==>
                 timer.slot < n && i < |abs.buckets[timer.slot]| && timer == abs.buckets[timer.slot][i].id
      modifies this`abs, wheel, repr`pre, repr`next
      ensures Valid() && abs == if timer == null then old(abs) else Delete(old(abs), timer.slot, i)
    {
      if timer == null {
        return;
      }
      ghost var b := abs.buckets[timer.slot];
      ghost var others := Others(timer.slot);
      assert timer.pre == At(b, i - 1) && timer.next == At(b, i + 1);
      assert timer in Nodes(b) && NodeOrNone(timer.pre) <= Nodes(b) && NodeOrNone(timer.next) <= Nodes(b);
      ghost var left := b[..i] + b[i + 1..];
      assert Nodes(left) <= Nodes(b);
      abs := With(timer.slot, left);
      var h := Unlink(wheel[timer.slot], timer, b, i);
      wheel[timer.slot] := h;
      assert Bucket(h, left, timer.slot);
      OthersStay(timer.slot);
    }

    /** Line 46 as written dereferences the new head of the bucket: a null pointer exactly
        when the timer was alone in it. */
    lemma OnlyTimerHasNoNeighbour(timer: Timer, i: nat)
      requires Valid() && timer.slot < n && i < |abs.buckets[timer.slot]| && timer == abs.buckets[timer.slot][i].id
      ensures timer.pre == null && timer.next == null <==> |abs.buckets[timer.slot]| == 1
      ensures timer.pre == null <==> i == 0
    {
      var b := abs.buckets[timer.slot];
      assert timer.pre == At(b, i - 1) && timer.next == At(b, i + 1);
    }

    /** Line 66, for node i of its bucket. */
    method LowerRound(timer: Timer, ghost i: nat)
      requires Valid()
      requires timer.slot < n && i < |abs.buckets[timer.slot]| && timer == abs.buckets[timer.slot][i].id
               && timer.round > 0
      modifies this`abs, timer`round
      ensures Valid()
      ensures abs == old(With(timer.slot, abs.buckets[timer.slot][i := Node(timer, timer.round - 1)]))
    {
      ghost var b := abs.buckets[timer.slot];
      ghost var others := Others(timer.slot);
      assert timer in Nodes(b) && timer !in others;
      ghost var lower := b[i := Node(timer, timer.round - 1)];
      assert Nodes(lower) <= Nodes(b);
      abs := With(timer.slot, lower);
      timer.round := timer.round - 1;
      assert Bucket(wheel[timer.slot], lower, timer.slot);
      OthersStay(timer.slot);
    }

    /** Lines 65-74 for node i of the current bucket: gives the next node and what was
        called back. */
    method Visit(timer: Timer, ghost i: nat) returns (next: Timer?, called: seq<int>)
      requires Valid() && i < |abs.buckets[cur]| && timer == abs.buckets[cur][i].id
      modifies this`abs, wheel, repr`pre, repr`next, repr`round
      ensures Valid() && abs == Visited(old(abs), i)
      ensures var node := old(abs.buckets[cur][i]);
              next == At(abs.buckets[cur], i + |Lowered(node)|) && called == Users(Gone(node))
    {
      ghost var b := abs.buckets[cur];
      assert timer.slot == cur && timer.next == At(b, i + 1) && timer.round == b[i].round;
      next := timer.next;
      if timer.round > 0 {
        assert b[i := Node(timer, timer.round - 1)] == b[..i] + Lowered(b[i]) + b[i + 1..];
        called := [];
        LowerRound(timer, i);
      } else {
        assert b[..i] + b[i + 1..] == b[..i] + Lowered(b[i]) + b[i + 1..];
        called := [timer.clientData];
        DeleteTimer(timer, i);
      }
    }

    /** Lines 61-76 as written: the timers of the current bucket are called back or lose
        a round; the wheel does not turn. */
    method TickBucket() returns (fired: seq<int>, ghost nodes: seq<Timer>)
      requires Valid()
      modifies this`abs, wheel, repr`pre, repr`next, repr`round
      ensures Valid() && abs == Stand(old(abs))
      ensures nodes == Fired(old(abs).buckets[cur]) && fired == Users(nodes)
    {
      ghost var w := abs;
      ghost var b := w.buckets[cur];
      ghost var d := 0;
      ghost var kept: seq<Node<Timer>> := [];
      fired, nodes := [], [];
      Undone(w);
      var next := wheel[cur];
      while next != null
        invariant Valid() && Done(b, d, kept, nodes) && fired == Users(nodes)
        invariant next == At(b, d)
        invariant abs == Current(w, kept + b[d..])
        decreases |b| - d
      {
        NextVisit(w, b, d, kept, nodes);
        var n, called := Visit(next, |kept|);
        fired, next := fired + called, n;
        kept, nodes := kept + Lowered(b[d]), nodes + Gone(b[d]);
        d := d + 1;
      }
      AllDone(w, d, kept, nodes);
    }

    /** Lines 61-76, and the turn to the next slot. */
    method TickAndTurn() returns (fired: seq<int>, ghost nodes: seq<Timer>)
      requires Valid()
      modifies this`abs, this`cur, wheel, repr`pre, repr`next, repr`round
      ensures Valid() && abs == Tick(old(abs))
      ensures nodes == Fired(old(abs.buckets[cur])) && fired == Users(nodes)
    {
      fired, nodes := TickBucket();
      cur := (cur + 1) % n;
      abs := abs.(cur := cur);
    }
  }

  lemma Added(w: Wheel<Timer>, timer: Timer, timeout: nat, round: nat, slot: nat)
    requires WellFormed(w) && slot < |w.buckets|
    requires round == Ticks(timeout, w.si) / |w.buckets| && slot == (w.cur + Ticks(timeout, w.si)) % |w.buckets|
    ensures Add(w, timer, timeout) == w.(buckets := w.buckets[slot := [Node(timer, round)] + w.buckets[slot]])
  {
  }

  /** The wheel with another current bucket. */
  ghost function Current(w: Wheel<Timer>, b: seq<Node<Timer>>): Wheel<Timer>
    requires WellFormed(w)
  {
    w.(buckets := w.buckets[w.cur := b])
  }

  /** The bucket b up to d is done: `kept` stays of it, `nodes` have fired. */
  ghost predicate Done(b: seq<Node<Timer>>, d: nat, kept: seq<Node<Timer>>, nodes: seq<Timer>) {
    d <= |b| && kept + Kept(b[d..]) == Kept(b) && nodes + Fired(b[d..]) == Fired(b)
  }

  function Lowered(node: Node<Timer>): seq<Node<Timer>> {
    if node.round == 0 then [] else [Node(node.id, node.round - 1)]
  }

  function Gone(node: Node<Timer>): seq<Timer> {
    if node.round == 0 then [node.id] else []
  }

  lemma DoneNext(b: seq<Node<Timer>>, d: nat, kept: seq<Node<Timer>>, nodes: seq<Timer>)
    requires d < |b| && Done(b, d, kept, nodes)
    ensures Done(b, d + 1, kept + Lowered(b[d]), nodes + Gone(b[d]))
  {
    assert b[d..][1..] == b[d + 1..];
  }

  /** The wheel after a visit to node i of the current bucket. */
  ghost function Visited(w: Wheel<Timer>, i: nat): (r: Wheel<Timer>)
    requires WellFormed(w) && i < |w.buckets[w.cur]|
    ensures WellFormed(r)
  {
    var b := w.buckets[w.cur];
    Current(w, b[..i] + Lowered(b[i]) + b[i + 1..])
  }

  lemma VisitedNext(w: Wheel<Timer>, b: seq<Node<Timer>>, d: nat, kept: seq<Node<Timer>>)
    requires WellFormed(w) && d < |b|
    ensures Visited(Current(w, kept + b[d..]), |kept|) == Current(w, kept + Lowered(b[d]) + b[d + 1..])
  {
    var r := kept + b[d..];
    assert r[..|kept|] == kept && r[|kept|] == b[d] && r[|kept| + 1..] == b[d + 1..];
  }

  lemma Undone(w: Wheel<Timer>)
    requires WellFormed(w)
    ensures var b := w.buckets[w.cur]; Done(b, 0, [], []) && Current(w, [] + b[0..]) == w
  {
    assert [] + w.buckets[w.cur][0..] == w.buckets[w.cur];
  }

  lemma AllDone(w: Wheel<Timer>, d: nat, kept: seq<Node<Timer>>, nodes: seq<Timer>)
    requires WellFormed(w) && Done(w.buckets[w.cur], d, kept, nodes) && At(w.buckets[w.cur], d) == null
    ensures Current(w, kept + w.buckets[w.cur][d..]) == Stand(w) && nodes == Fired(w.buckets[w.cur])
  {
    assert w.buckets[w.cur][d..] == [];
  }

  lemma NextVisit(w: Wheel<Timer>, b: seq<Node<Timer>>, d: nat, kept: seq<Node<Timer>>, nodes: seq<Timer>)
    requires WellFormed(w) && d < |b| && Done(b, d, kept, nodes)
    ensures (kept + b[d..])[|kept|] == b[d]
    ensures Done(b, d + 1, kept + Lowered(b[d]), nodes + Gone(b[d]))
    ensures Visited(Current(w, kept + b[d..]), |kept|) == Current(w, kept + Lowered(b[d]) + b[d + 1..])
    ensures Users(nodes + Gone(b[d])) == Users(nodes) + Users(Gone(b[d]))
    ensures At(kept + Lowered(b[d]) + b[d + 1..], |kept| + |Lowered(b[d])|) == At(b, d + 1)
  {
    DoneNext(b, d, kept, nodes);
    VisitedNext(w, b, d, kept);
    UsersAppend(nodes, Gone(b[d]));
  }

  ghost function Users(nodes: seq<Timer>): (u: seq<int>)
    ensures |u| == |nodes| && forall i :: 0 <= i < |nodes| ==> u[i] == nodes[i].clientData
  {
    seq(|nodes|, i requires 0 <= i < |nodes| => nodes[i].clientData)
  }

  lemma UsersAppend(nodes: seq<Timer>, more: seq<Timer>)
    ensures Users(nodes + more) == Users(nodes) + Users(more)
  {
  }
}
