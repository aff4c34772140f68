/** Whole runs of the timer wheel: a timer fires on precisely the tick its timeout
    asks for, once, unless it is deleted first. */
module WheelRuns {
  import opened Runs
  import opened WheelSpec

  /** The wheel, and a history: the number of ticks so far, the tick at which each timer
      ever added is to fire, which timers fired at which tick, and which were deleted. */
  datatype State = State(wheel: Wheel<int>, now: nat, due: map<int, nat>, log: seq<(int, nat)>, deleted: set<int>)

  datatype Move = AddTimer(id: int, timeout: int) | DeleteTimer(id: int) | TickNow

  /** timer_wheel.h lines 48-58; the vector is given its n slots, which the source leaves empty. */
  function New(n: nat, si: nat): State
    requires n > 0 && si > 0
  {
    State(Wheel(0, si, seq(n, _ => [])), 0, map[], [], {})
  }

  function Step(s: State, m: Move): Option<State> {
    if s.wheel.cur >= |s.wheel.buckets| || s.wheel.si == 0 then None else  // never the case
    match m
    case AddTimer(id, timeout) =>
      if id in s.due then None  // every timer is a new object
      else if timeout < 0 then Some(s)
      else Some(s.(wheel := Add(s.wheel, id, timeout), due := s.due[id := s.now + Ticks(timeout, s.wheel.si)]))
    case DeleteTimer(id) =>
      var slot := SlotOf(s.wheel, id, 0);
      if slot == |s.wheel.buckets| then None
      else
        Some(s.(wheel := Delete(s.wheel, slot, IndexIn(s.wheel.buckets[slot], id)), deleted := s.deleted + {id}))
    case TickNow =>
      Some(s.(wheel := Tick(s.wheel), now := s.now + 1,
              log := s.log + Stamp(Fired(s.wheel.buckets[s.wheel.cur]), s.now)))
  }

  /** Where a timer is in a bucket; the bucket's length if it is not. */
  function IndexIn(b: seq<Node<int>>, id: int): (k: nat)
    ensures k <= |b| && (k < |b| ==> b[k].id == id)
    ensures forall i :: 0 <= i < k ==> b[i].id != id
  {
    if b == [] || b[0].id == id then 0 else 1 + IndexIn(b[1..], id)
  }

  /** The first slot from `from` on that has a timer; the number of slots if none has. */
  function SlotOf(w: Wheel<int>, id: int, from: nat): (s: nat)
    requires from <= |w.buckets|
    ensures from <= s <= |w.buckets| && (s < |w.buckets| ==> IndexIn(w.buckets[s], id) < |w.buckets[s]|)
    ensures forall t :: from <= t < s ==> IndexIn(w.buckets[t], id) == |w.buckets[t]|
    decreases |w.buckets| - from
  {
    if from == |w.buckets| || IndexIn(w.buckets[from], id) < |w.buckets[from]| then from else SlotOf(w, id, from + 1)
  }

  function Stamp(ids: seq<int>, at: nat): (r: seq<(int, nat)>)
    ensures |r| == |ids| && forall i :: 0 <= i < |ids| ==> r[i] == (ids[i], at)
  {
    seq(|ids|, i requires 0 <= i < |ids| => (ids[i], at))
  }

  ghost predicate Logged(log: seq<(int, nat)>, id: int) { exists k :: 0 <= k < |log| && log[k].0 == id }

  ghost predicate Inv(s: State) {
    && WellFormed(s.wheel) && Distinct(s.wheel)
    && (forall id, r :: Waits(s.wheel, id, r) ==>
          r >= 0 && id in s.due && s.due[id] == s.now + r && id !in s.deleted && !Logged(s.log, id))
    && (forall id :: id in s.due ==> id in s.deleted || Logged(s.log, id) || Waits(s.wheel, id, s.due[id] - s.now))
    && (forall k :: 0 <= k < |s.log| ==>
          s.log[k].0 in s.due && s.log[k].1 == s.due[s.log[k].0] < s.now && s.log[k].0 !in s.deleted)
    && (forall id :: id in s.deleted ==> id in s.due)
    && (forall j, k :: 0 <= j < k < |s.log| ==> s.log[j].0 != s.log[k].0)
  }

  lemma NodesWait(w: Wheel<int>, slot: nat, id: int, round: nat)
    requires WellFormed(w) && HasNode(w, slot, id, round)
    ensures Waits(w, id, Remaining(|w.buckets|, w.cur, slot, round))
  {
  }

  lemma AddKeeps(s: State, id: int, timeout: int)
    requires Inv(s) && id !in s.due && timeout >= 0
    ensures Inv(Step(s, AddTimer(id, timeout)).value)
  {
    forall slot: nat, a: nat ensures !HasNode(s.wheel, slot, id, a) {
      if HasNode(s.wheel, slot, id, a) { NodesWait(s.wheel, slot, id, a); }
    }
    AddKeepsDistinct(s.wheel, id, timeout);
    var ticks := Ticks(timeout, s.wheel.si);
    forall x, r ensures Waits(Add(s.wheel, id, timeout), x, r) <==> Waits(s.wheel, x, r) || (x == id && r == ticks) {
      AddRefines(s.wheel, id, timeout, x, r);
    }
    AddedKeeps(s, Add(s.wheel, id, timeout), id, ticks);
  }

  lemma AddedKeeps(s: State, wheel: Wheel<int>, id: int, ticks: nat)
    requires Inv(s) && id !in s.due && WellFormed(wheel) && Distinct(wheel)
    requires forall x, r :: Waits(wheel, x, r) <==> Waits(s.wheel, x, r) || (x == id && r == ticks)
    ensures Inv(s.(wheel := wheel, due := s.due[id := s.now + ticks]))
  {
    var n := s.(wheel := wheel, due := s.due[id := s.now + ticks]);
    assert !Logged(s.log, id);
    forall x | x in n.due ensures x in n.deleted || Logged(n.log, x) || Waits(n.wheel, x, n.due[x] - n.now) {
      if x != id { assert x in s.due; }
    }
  }

  lemma DeleteKeeps(s: State, id: int)
    requires Inv(s) && Step(s, DeleteTimer(id)).Some?
    ensures Inv(Step(s, DeleteTimer(id)).value)
  {
    var n := Step(s, DeleteTimer(id)).value;
    var slot := SlotOf(s.wheel, id, 0);
    var i := IndexIn(s.wheel.buckets[slot], id);
    DeleteRefines(s.wheel, slot, i);
    NodesWait(s.wheel, slot, id, s.wheel.buckets[slot][i].round);
    forall x, r ensures Waits(n.wheel, x, r) <==> Waits(s.wheel, x, r) && x != id {
      if Waits(s.wheel, x, r) && x != id {
        var t, a :| HasNode(s.wheel, t, x, a) && Remaining(|s.wheel.buckets|, s.wheel.cur, t, a) == r;
        assert HasNode(n.wheel, t, x, a);
      }
    }
  }

  lemma TickKeeps(s: State)
    requires Inv(s)
    ensures Inv(Step(s, TickNow).value)
  {
    var n := Step(s, TickNow).value;
    var fired := Fired(s.wheel.buckets[s.wheel.cur]);
    TickKeepsDistinct(s.wheel);
    FiredNoDuplicates(s.wheel.buckets[s.wheel.cur]);
    forall id, r ensures Waits(n.wheel, id, r) <==> r >= 0 && Waits(s.wheel, id, r + 1) { TickRefines(s.wheel, id, r); }
    forall id ensures id in fired <==> Waits(s.wheel, id, 0) { TickFires(s.wheel, id); }
    forall id ensures Logged(n.log, id) <==> Logged(s.log, id) || id in fired {
      LoggedAppends(s.log, fired, s.now, id);
    }
    forall i | 0 <= i < |fired|
      ensures fired[i] in s.due && s.due[fired[i]] == s.now && fired[i] !in s.deleted && !Logged(s.log, fired[i])
    {
      assert fired[i] in fired;
      assert Waits(s.wheel, fired[i], 0);
    }
  }

  lemma LoggedAppends(log: seq<(int, nat)>, ids: seq<int>, at: nat, id: int)
    ensures Logged(log + Stamp(ids, at), id) <==> Logged(log, id) || id in ids
  {
    var n := log + Stamp(ids, at);
    if Logged(log, id) {
      var k :| 0 <= k < |log| && log[k].0 == id;
      assert n[k].0 == id;
    }
    if id in ids {
      var k :| 0 <= k < |ids| && ids[k] == id;
      assert n[|log| + k].0 == id;
    }
  }

  lemma StepKeepsInv(s: State, m: Move)
    requires Inv(s) && Step(s, m).Some?
    ensures Inv(Step(s, m).value)
  {
    match m
    case AddTimer(id, timeout) => if timeout >= 0 { AddKeeps(s, id, timeout); }
    case DeleteTimer(id) => DeleteKeeps(s, id);
    case TickNow => TickKeeps(s);
  }

  lemma RunKeepsInv(n: nat, si: nat, moves: seq<Move>)
    requires n > 0 && si > 0
    ensures Inv(Exec(Step, New(n, si), moves))
  {
    forall s, m | Inv(s) && Step(s, m).Some? ensures Inv(Step(s, m).value) { StepKeepsInv(s, m); }
    Invariant(Step, s => Inv(s), New(n, si), moves);
  }

  // ---- What the moves ask for.

  function Ticked(h: seq<Move>): nat { Count(h, TickNow) }

  /** The tick a timer asks for: its timeout after the ticks made when it was added. */
  function Due(h: seq<Move>, si: nat, id: int): Option<nat>
    requires si > 0
  {
    if h == [] then None
    else
      var past := h[..|h| - 1];
      match h[|h| - 1]
      case AddTimer(x, timeout) =>
        if x == id && timeout >= 0 then Some(Ticked(past) + Ticks(timeout, si)) else Due(past, si, id)
      case _ => Due(past, si, id)
  }

  predicate Deleted(h: seq<Move>, id: int) { DeleteTimer(id) in h }

  /** The moves of a schedule that went through. */
  function Past(n: nat, si: nat, moves: seq<Move>): seq<Move>
    requires n > 0 && si > 0
  {
    Made(Step, New(n, si), moves)
  }

  ghost predicate Asked(s: State, h: seq<Move>, si: nat)
    requires si > 0
  {
    && Inv(s) && s.wheel.si == si && s.now == Ticked(h)
    && (forall id :: Due(h, si, id) == if id in s.due then Some(s.due[id]) else None)
    && (forall id :: Deleted(h, id) <==> id in s.deleted)
  }

  lemma DueNext(h: seq<Move>, si: nat, m: Move, id: int)
    requires si > 0
    ensures Due(h + [m], si, id) ==
            if m.AddTimer? && m.id == id && m.timeout >= 0 then Some(Ticked(h) + Ticks(m.timeout, si))
            else Due(h, si, id)
    ensures Deleted(h + [m], id) <==> Deleted(h, id) || m == DeleteTimer(id)
  {
    assert (h + [m])[..|h|] == h;
  }

  lemma DuesAgree(s: State, h: seq<Move>, si: nat, m: Move, id: int)
    requires si > 0 && Asked(s, h, si) && Step(s, m).Some?
    ensures var n := Step(s, m).value;
            && Due(h + [m], si, id) == (if id in n.due then Some(n.due[id]) else None)
            && (Deleted(h + [m], id) <==> id in n.deleted)
  {
    DueNext(h, si, m, id);
  }

  lemma StepIsAsked(s: State, h: seq<Move>, si: nat, m: Move)
    requires si > 0 && Asked(s, h, si) && Step(s, m).Some?
    ensures Asked(Step(s, m).value, h + [m], si)
  {
    var n := Step(s, m).value;
    StepKeepsInv(s, m);
    CountNext(h, m);
    assert n.wheel.si == si && n.now == Ticked(h + [m]);
    forall id
      ensures Due(h + [m], si, id) == (if id in n.due then Some(n.due[id]) else None)
      ensures Deleted(h + [m], id) <==> id in n.deleted
    {
      DuesAgree(s, h, si, m, id);
    }
  }

  lemma RunIsAsked(n: nat, si: nat, moves: seq<Move>)
    requires n > 0 && si > 0
    ensures Asked(Exec(Step, New(n, si), moves), Past(n, si, moves), si)
  {
    forall s, h, m | Asked(s, h, si) && Step(s, m).Some? ensures Asked(Step(s, m).value, h + [m], si) {
      StepIsAsked(s, h, si, m);
    }
    History(Step, (s, h) => Asked(s, h, si), New(n, si), [], moves);
    assert [] + Past(n, si, moves) == Past(n, si, moves);
  }

  /** How late a timer has been added; 0 if it has not. */
  function Added(h: seq<Move>, id: int): (r: nat)
    ensures r <= |h|
  {
    if h == [] then 0
    else if h[|h| - 1].AddTimer? && h[|h| - 1].id == id && h[|h| - 1].timeout >= 0 then |h|
    else Added(h[..|h| - 1], id)
  }

  /** The log after h: every timer in it once, on the tick it asks for, and every one that
      is not deleted, once its tick is past; by ticks, and within a tick the latest added
      first. */
  ghost predicate LogIsRight(log: seq<(int, nat)>, h: seq<Move>, si: nat)
    requires si > 0
  {
    && (forall k :: 0 <= k < |log| ==>
          Due(h, si, log[k].0) == Some(log[k].1) && log[k].1 < Ticked(h) && !Deleted(h, log[k].0))
    && (forall id :: Due(h, si, id).Some? && Due(h, si, id).value < Ticked(h) && !Deleted(h, id) ==> Logged(log, id))
    && (forall j, k :: 0 <= j < k < |log| ==> log[j].0 != log[k].0)
    && Chronological(log, h)
  }

  ghost predicate Chronological(log: seq<(int, nat)>, h: seq<Move>) {
    forall j, k :: 0 <= j < k < |log| ==>
      log[j].1 < log[k].1 || (log[j].1 == log[k].1 && Added(h, log[j].0) > Added(h, log[k].0))
  }

  // ---- The order within a tick.

  function Adds(ids: seq<int>, h: seq<Move>): (r: seq<nat>)
    ensures |r| == |ids| && forall i :: 0 <= i < |ids| ==> r[i] == Added(h, ids[i])
  {
    seq(|ids|, i requires 0 <= i < |ids| => Added(h, ids[i]))
  }

  predicate Descends(r: seq<nat>) { forall i, j :: 0 <= i < j < |r| ==> r[i] > r[j] }

  predicate Below(r: seq<nat>, at: nat) { forall i :: 0 <= i < |r| ==> r[i] < at }

  /** Every timer was added later than those behind it. */
  predicate LatestFirst(ids: seq<int>, h: seq<Move>) { Descends(Adds(ids, h)) }

  function Ids(b: seq<Node<int>>): (r: seq<int>)
    ensures |r| == |b| && forall i :: 0 <= i < |b| ==> r[i] == b[i].id
  {
    seq(|b|, i requires 0 <= i < |b| => b[i].id)
  }

  ghost predicate Stacked(w: Wheel<int>, h: seq<Move>) {
    forall t :: 0 <= t < |w.buckets| ==> LatestFirst(Ids(w.buckets[t]), h)
  }

  lemma InFront(x: nat, r: seq<nat>, at: nat)
    requires Descends(r) && Below(r, x) && x < at
    ensures Descends([x] + r) && Below([x] + r, at)
  {
  }

  lemma {:induction false} FiredInOrder(b: seq<Node<int>>, h: seq<Move>, at: nat)
    requires LatestFirst(Ids(b), h) && Below(Adds(Ids(b), h), at)
    ensures LatestFirst(Fired(b), h) && Below(Adds(Fired(b), h), at)
  {
    if b != [] {
      RestInOrder(b, h);
      FiredInOrder(b[1..], h, Added(h, b[0].id));
      assert Ids(b)[0] == b[0].id && Adds(Ids(b), h)[0] == Added(h, b[0].id);
      var r := Adds(Fired(b[1..]), h);
      InFront(Added(h, b[0].id), r, at);
      if b[0].round == 0 {
        assert Adds(Fired(b), h) == [Added(h, b[0].id)] + r;
      } else {
        assert Fired(b) == Fired(b[1..]);
      }
    }
  }

  lemma {:induction false} KeptInOrder(b: seq<Node<int>>, h: seq<Move>, at: nat)
    requires LatestFirst(Ids(b), h) && Below(Adds(Ids(b), h), at)
    ensures LatestFirst(Ids(Kept(b)), h) && Below(Adds(Ids(Kept(b)), h), at)
  {
    if b != [] {
      RestInOrder(b, h);
      KeptInOrder(b[1..], h, Added(h, b[0].id));
      assert Ids(b)[0] == b[0].id && Adds(Ids(b), h)[0] == Added(h, b[0].id);
      var r := Adds(Ids(Kept(b[1..])), h);
      InFront(Added(h, b[0].id), r, at);
      if b[0].round == 0 {
        assert Kept(b) == Kept(b[1..]);
      } else {
        assert Adds(Ids(Kept(b)), h) == [Added(h, b[0].id)] + r;
      }
    }
  }

  lemma RestInOrder(b: seq<Node<int>>, h: seq<Move>)
    requires b != [] && LatestFirst(Ids(b), h)
    ensures LatestFirst(Ids(b[1..]), h) && Below(Adds(Ids(b[1..]), h), Added(h, b[0].id))
  {
    assert Adds(Ids(b), h)[0] == Added(h, b[0].id);
    assert Adds(Ids(b[1..]), h) == Adds(Ids(b), h)[1..];
  }

  ghost predicate Ordered(s: State, h: seq<Move>) {
    Inv(s) && Stacked(s.wheel, h) && Chronological(s.log, h)
  }

  lemma OrderNext(h: seq<Move>, m: Move, id: int)
    requires !m.AddTimer? || m.id != id || m.timeout < 0
    ensures Added(h + [m], id) == Added(h, id)
  {
    assert (h + [m])[..|h|] == h;
  }

  /** A move other than an add of one of these leaves their order as it is. */
  lemma OrderStays(ids: seq<int>, h: seq<Move>, m: Move)
    requires m.AddTimer? ==> m.id !in ids
    ensures Adds(ids, h + [m]) == Adds(ids, h)
  {
    forall i | 0 <= i < |ids| ensures Added(h + [m], ids[i]) == Added(h, ids[i]) { OrderNext(h, m, ids[i]); }
  }

  lemma ChronologyStays(log: seq<(int, nat)>, h: seq<Move>, m: Move)
    requires Chronological(log, h) && (m.AddTimer? ==> !Logged(log, m.id))
    ensures Chronological(log, h + [m])
  {
    forall k | 0 <= k < |log| ensures Added(h + [m], log[k].0) == Added(h, log[k].0) { OrderNext(h, m, log[k].0); }
  }

  lemma ChronologyGrows(log: seq<(int, nat)>, h: seq<Move>, fired: seq<int>, at: nat)
    requires Chronological(log, h) && LatestFirst(fired, h) && forall k :: 0 <= k < |log| ==> log[k].1 < at
    ensures Chronological(log + Stamp(fired, at), h)
  {
    forall j, k | 0 <= j < k < |fired| ensures Added(h, fired[j]) > Added(h, fired[k]) {
      assert Adds(fired, h)[j] > Adds(fired, h)[k];
    }
  }

  lemma BucketStays(s: State, h: seq<Move>, m: Move, t: nat)
    requires Ordered(s, h) && t < |s.wheel.buckets| && (m.AddTimer? ==> m.id !in s.due)
    ensures Adds(Ids(s.wheel.buckets[t]), h + [m]) == Adds(Ids(s.wheel.buckets[t]), h)
  {
    var b := s.wheel.buckets[t];
    forall i | 0 <= i < |b| ensures Ids(b)[i] in s.due { NodesWait(s.wheel, t, b[i].id, b[i].round); }
    OrderStays(Ids(b), h, m);
  }

  lemma AddKeepsOrder(s: State, h: seq<Move>, m: Move)
    requires Ordered(s, h) && m.AddTimer? && m.id !in s.due && m.timeout >= 0
    ensures Stacked(Add(s.wheel, m.id, m.timeout), h + [m])
  {
    var n := Add(s.wheel, m.id, m.timeout);
    forall t | 0 <= t < |n.buckets| ensures LatestFirst(Ids(n.buckets[t]), h + [m]) {
      var b := s.wheel.buckets[t];
      BucketStays(s, h, m, t);
      assert LatestFirst(Ids(b), h);
      InFront(|h| + 1, Adds(Ids(b), h), |h| + 2);
      if n.buckets[t] != b { assert Adds(Ids(n.buckets[t]), h + [m]) == [|h| + 1] + Adds(Ids(b), h); }
    }
  }

  lemma DeleteKeepsOrder(w: Wheel<int>, h: seq<Move>, slot: nat, i: nat)
    requires WellFormed(w) && Stacked(w, h) && slot < |w.buckets| && i < |w.buckets[slot]|
    ensures Stacked(Delete(w, slot, i), h)
  {
    var b := w.buckets[slot];
    assert LatestFirst(Ids(b), h);
    var r := Adds(Ids(b), h);
    assert Adds(Ids(b[..i] + b[i + 1..]), h) == r[..i] + r[i + 1..];
  }

  lemma TurnKeepsOrder(w: Wheel<int>, h: seq<Move>)
    requires WellFormed(w) && Stacked(w, h)
    ensures Stacked(Tick(w), h) && LatestFirst(Fired(w.buckets[w.cur]), h)
  {
    var b := w.buckets[w.cur];
    assert LatestFirst(Ids(b), h);
    FiredInOrder(b, h, |h| + 1);
    KeptInOrder(b, h, |h| + 1);
  }

  lemma StepKeepsOrder(s: State, h: seq<Move>, m: Move)
    requires Ordered(s, h) && Step(s, m).Some?
    ensures Ordered(Step(s, m).value, h + [m])
  {
    StepKeepsInv(s, m);
    ChronologyStays(s.log, h, m);
    forall t | 0 <= t < |s.wheel.buckets| ensures LatestFirst(Ids(s.wheel.buckets[t]), h + [m]) {
      BucketStays(s, h, m, t);
    }
    match m
    case AddTimer(id, timeout) => if timeout >= 0 { AddKeepsOrder(s, h, m); }
    case DeleteTimer(id) =>
      var slot := SlotOf(s.wheel, id, 0);
      DeleteKeepsOrder(s.wheel, h + [m], slot, IndexIn(s.wheel.buckets[slot], id));
    case TickNow =>
      TurnKeepsOrder(s.wheel, h + [m]);
      ChronologyGrows(s.log, h + [m], Fired(s.wheel.buckets[s.wheel.cur]), s.now);
  }

  lemma RunIsOrdered(n: nat, si: nat, moves: seq<Move>)
    requires n > 0 && si > 0
    ensures Ordered(Exec(Step, New(n, si), moves), Past(n, si, moves))
  {
    forall s, h, m | Ordered(s, h) && Step(s, m).Some? ensures Ordered(Step(s, m).value, h + [m]) {
      StepKeepsOrder(s, h, m);
    }
    History(Step, (s, h) => Ordered(s, h), New(n, si), [], moves);
    assert [] + Past(n, si, moves) == Past(n, si, moves);
  }

  /** A timer that is not deleted has fired exactly when the tick its timeout asks for is
      past, on that tick and no other, once; until then it waits with exactly the missing
      number of ticks. */
  lemma FiresOnTime(n: nat, si: nat, moves: seq<Move>)
    requires n > 0 && si > 0
    ensures var s, h := Exec(Step, New(n, si), moves), Past(n, si, moves);
            && WellFormed(s.wheel) && LogIsRight(s.log, h, si)
            && (forall id :: Due(h, si, id).Some? && !Deleted(h, id) ==>
                  (Due(h, si, id).value >= Ticked(h) <==> Waits(s.wheel, id, Due(h, si, id).value - Ticked(h))))
  {
    RunIsAsked(n, si, moves);
    RunIsOrdered(n, si, moves);
  }

  /** A timer can be added exactly if it has not been before, and deleted exactly as long as
      it waits; the wheel can always tick. */
  lemma MovesExactly(n: nat, si: nat, moves: seq<Move>, m: Move)
    requires n > 0 && si > 0
    ensures var s, h := Exec(Step, New(n, si), moves), Past(n, si, moves);
            Step(s, m).Some? <==>
              match m
              case AddTimer(id, _) => Due(h, si, id).None?
              case DeleteTimer(id) => Due(h, si, id).Some? && Due(h, si, id).value >= Ticked(h) && !Deleted(h, id)
              case TickNow => true
  {
    RunIsAsked(n, si, moves);
    var s, h := Exec(Step, New(n, si), moves), Past(n, si, moves);
    if m.DeleteTimer? { FoundExactly(s, m.id); }
  }

  lemma FoundExactly(s: State, id: int)
    requires Inv(s)
    ensures SlotOf(s.wheel, id, 0) < |s.wheel.buckets| <==> id in s.due && s.due[id] >= s.now && id !in s.deleted
  {
    var slot := SlotOf(s.wheel, id, 0);
    if slot < |s.wheel.buckets| {
      var b := s.wheel.buckets[slot];
      NodesWait(s.wheel, slot, id, b[IndexIn(b, id)].round);
    }
    if id in s.due && s.due[id] >= s.now && id !in s.deleted {
      assert Waits(s.wheel, id, s.due[id] - s.now);
      var t, a :| HasNode(s.wheel, t, id, a);
      NodeIsFound(s.wheel, t, id, a);
    }
  }

  lemma NodeIsFound(w: Wheel<int>, slot: nat, id: int, round: nat)
    requires HasNode(w, slot, id, round)
    ensures SlotOf(w, id, 0) <= slot
  {
    var i :| 0 <= i < |w.buckets[slot]| && w.buckets[slot][i] == Node(id, round);
    assert IndexIn(w.buckets[slot], id) <= i;
  }
}
