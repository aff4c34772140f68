/** Any sequence of operations on the sorted list of timer/timer_list/timer_list.cpp. */
module TimerRuns {
  import opened Runs
  import opened TimerSpec

  /** The list, and the timers called back so far, in order. */
  datatype State = State(list: seq<Entry<int>>, fired: seq<int>)

  datatype Operation = Add(id: int, t: int) | Delete(id: int) | Lengthen(id: int, t: int) | Tick(now: int)

  /** None when the caller breaks the rules: a timer added that is listed or was called back, no such
      timer, a deadline set earlier. */
  function Step(s: State, o: Operation): Option<State> {
    match o
    case Add(id, t) =>
      if IndexOf(s.list, id) < |s.list| || id in s.fired then None
      else Some(s.(list := Insert(s.list, 0, Entry(id, t))))
    case Delete(id) =>
      var k := IndexOf(s.list, id);
      if k == |s.list| then None else Some(s.(list := Remove(s.list, k)))
    case Lengthen(id, t) =>
      var k := IndexOf(s.list, id);
      if k == |s.list| || t < s.list[k].expire then None else Some(s.(list := Adjust(s.list, k, t)))
    case Tick(now) =>
      var d := Due(s.list, now);
      Some(State(s.list[d..], s.fired + Names(s.list[..d])))
  }

  function Names(l: seq<Entry<int>>): (r: seq<int>)
    ensures |r| == |l| && forall i :: 0 <= i < |l| ==> r[i] == l[i].id
  {
    seq(|l|, i requires 0 <= i < |l| => l[i].id)
  }

  // ---- What the operations ask for.

  /** The deadline of every timer added and neither deleted nor called back. */
  function Deadlines(h: seq<Operation>): map<int, int> {
    if h == [] then map[]
    else
      var past := Deadlines(h[..|h| - 1]);
      match h[|h| - 1]
      case Add(id, t) => past[id := t]
      case Delete(id) => past - {id}
      case Lengthen(id, t) => past[id := t]
      case Tick(now) => Later(past, now)
  }

  /** The timers whose deadline a tick has met. */
  function Met(h: seq<Operation>): set<int> {
    if h == [] then {}
    else
      var past := h[..|h| - 1];
      match h[|h| - 1]
      case Tick(now) => Met(past) + set id | id in Deadlines(past) && Deadlines(past)[id] <= now
      case _ => Met(past)
  }

  /** The list holds exactly these timers with these deadlines. */
  ghost predicate Lists(l: seq<Entry<int>>, deadlines: map<int, int>) {
    && Sorted(l) && Distinct(l) && Ids(l) == deadlines.Keys
    && (forall e :: e in l ==> e.id in deadlines && e.expire == deadlines[e.id])
  }

  ghost predicate Called(fired: seq<int>, met: set<int>) {
    && (forall id :: id in fired <==> id in met)
    && (forall j, k :: 0 <= j < k < |fired| ==> fired[j] != fired[k])
  }

  ghost predicate Inv(s: State, h: seq<Operation>) {
    Lists(s.list, Deadlines(h)) && Called(s.fired, Met(h)) && Deadlines(h).Keys !! Met(h)
  }

  /** A list to which e has been added, or in which e has been set anew. */
  lemma ListsWith(l: seq<Entry<int>>, n: seq<Entry<int>>, deadlines: map<int, int>, e: Entry<int>)
    requires Lists(l, deadlines) && Sorted(n) && Distinct(n) && Ids(n) == Ids(l) + {e.id}
    requires forall x :: x in n ==> x == e || (x in l && x.id != e.id)
    ensures Lists(n, deadlines[e.id := e.expire])
  {
  }

  lemma ListsWithout(l: seq<Entry<int>>, n: seq<Entry<int>>, deadlines: map<int, int>, id: int)
    requires Lists(l, deadlines) && Sorted(n) && Distinct(n) && Ids(n) == Ids(l) - {id}
    requires forall x :: x in n ==> x in l && x.id != id
    ensures Lists(n, deadlines - {id})
  {
  }

  lemma AddLists(l: seq<Entry<int>>, deadlines: map<int, int>, id: int, t: int)
    requires Lists(l, deadlines) && id !in deadlines
    ensures Lists(Insert(l, 0, Entry(id, t)), deadlines[id := t])
  {
    InsertIsSorted(l, 0, Entry(id, t));
    InsertIds(l, 0, Entry(id, t));
    assert forall e :: e in l ==> e.id != id;
    ListsWith(l, Insert(l, 0, Entry(id, t)), deadlines, Entry(id, t));
  }

  lemma DeleteLists(l: seq<Entry<int>>, deadlines: map<int, int>, id: int)
    requires Lists(l, deadlines) && IndexOf(l, id) < |l|
    ensures Lists(Remove(l, IndexOf(l, id)), deadlines - {id})
  {
    RemoveIsSorted(l, IndexOf(l, id));
    RemoveIds(l, IndexOf(l, id));
    ListsWithout(l, Remove(l, IndexOf(l, id)), deadlines, id);
  }

  lemma LengthenLists(l: seq<Entry<int>>, deadlines: map<int, int>, id: int, t: int)
    requires Lists(l, deadlines) && IndexOf(l, id) < |l| && l[IndexOf(l, id)].expire <= t
    ensures Lists(Adjust(l, IndexOf(l, id), t), deadlines[id := t])
  {
    var k := IndexOf(l, id);
    LengtheningIsSorted(l, k, t);
    AdjustIds(l, k, t);
    HasId(l, k);
    ListsWith(l, Adjust(l, k, t), deadlines, Entry(id, t));
  }

  lemma HasId(l: seq<Entry<int>>, k: nat)
    requires k < |l|
    ensures Ids(l) + {l[k].id} == Ids(l)
  {
  }

  function Later(deadlines: map<int, int>, now: int): map<int, int> {
    map id | id in deadlines && deadlines[id] > now :: deadlines[id]
  }

  lemma TickLists(l: seq<Entry<int>>, deadlines: map<int, int>, now: int)
    requires Lists(l, deadlines)
    ensures Lists(l[Due(l, now)..], Later(deadlines, now))
    ensures Ids(l[..Due(l, now)]) == set id | id in deadlines && deadlines[id] <= now
  {
    var d := Due(l, now);
    DueIsExact(l, now);
    TickIds(l, d);
    forall id | id in deadlines ensures id in Ids(l[d..]) <==> deadlines[id] > now { DueById(l, deadlines, now, id); }
    assert Ids(l[..d]) == Ids(l) - Ids(l[d..]) by { TickTakes(l, d); }
    LaterLists(l, l[d..], deadlines, now);
  }

  lemma LaterLists(l: seq<Entry<int>>, n: seq<Entry<int>>, deadlines: map<int, int>, now: int)
    requires Lists(l, deadlines) && Sorted(n) && Distinct(n) && forall x :: x in n ==> x in l
    requires forall id :: id in deadlines ==> (id in Ids(n) <==> deadlines[id] > now)
    ensures Lists(n, Later(deadlines, now))
  {
    forall x | x in n ensures x.id in Ids(n) && x.id in deadlines {
      var i :| 0 <= i < |n| && n[i] == x;
      assert x in l;
    }
    forall id ensures id in Ids(n) <==> id in Later(deadlines, now) {
      if id in Ids(n) {
        var i :| 0 <= i < |n| && n[i].id == id;
        assert n[i] in n;
      }
    }
  }

  lemma DueById(l: seq<Entry<int>>, deadlines: map<int, int>, now: int, id: int)
    requires Lists(l, deadlines) && id in deadlines
    ensures id in Ids(l[Due(l, now)..]) <==> deadlines[id] > now
  {
    DueIsExact(l, now);
    var i :| 0 <= i < |l| && l[i].id == id;
    assert l[i] in l;
    SideOf(l, Due(l, now), i);
  }

  lemma SideOf(l: seq<Entry<int>>, d: nat, i: nat)
    requires Distinct(l) && d <= |l| && i < |l|
    ensures l[i].id in Ids(l[d..]) <==> i >= d
  {
    if i >= d {
      assert l[d..][i - d] == l[i];
    } else {
      TickIds(l, d);
      assert l[..d][i] == l[i];
    }
  }

  lemma TickTakes(l: seq<Entry<int>>, d: nat)
    requires Distinct(l) && d <= |l|
    ensures Ids(l[..d]) == Ids(l) - Ids(l[d..])
  {
    TickIds(l, d);
    forall i | 0 <= i < d ensures l[i].id !in Ids(l[d..]) && l[..d][i] == l[i] {
    }
  }

  lemma TickCalls(s: State, h: seq<Operation>, now: int)
    requires Inv(s, h)
    ensures var d := Due(s.list, now); Called(s.fired + Names(s.list[..d]), Met(h) + Ids(s.list[..d]))
  {
    var d := Due(s.list, now);
    var names := Names(s.list[..d]);
    forall i | 0 <= i < d ensures s.list[i].id in Deadlines(h) && s.list[..d][i] == s.list[i] {
      assert s.list[i].id in Ids(s.list);
    }
    forall id ensures id in names <==> id in Ids(s.list[..d]) {
      if id in Ids(s.list[..d]) {
        var i :| 0 <= i < d && s.list[..d][i].id == id;
        assert names[i] == id;
      }
    }
  }

  lemma StepKeepsInv(s: State, h: seq<Operation>, o: Operation)
    requires Inv(s, h) && Step(s, o).Some?
    ensures Inv(Step(s, o).value, h + [o])
  {
    assert (h + [o])[..|h|] == h;
    match o
    case Add(id, t) => AddKeepsInv(s, h, id, t);
    case Delete(id) => DeleteLists(s.list, Deadlines(h), id);
    case Lengthen(id, t) =>
      LengthenLists(s.list, Deadlines(h), id, t);
      assert s.list[IndexOf(s.list, id)].id in Ids(s.list);
    case Tick(now) =>
      TickLists(s.list, Deadlines(h), now);
      TickCalls(s, h, now);
  }

  lemma AddKeepsInv(s: State, h: seq<Operation>, id: int, t: int)
    requires Inv(s, h) && Step(s, Add(id, t)).Some?
    ensures Inv(Step(s, Add(id, t)).value, h + [Add(id, t)])
  {
    assert (h + [Add(id, t)])[..|h|] == h;
    assert id !in Ids(s.list);
    AddLists(s.list, Deadlines(h), id, t);
  }

  /** After any sequence of operations the list is sorted and holds exactly the timers that
      were added and neither deleted nor called back, each once and with the deadline last
      set for it; those called back are exactly those whose deadline a tick has met, and
      none is called back twice. */
  lemma ListIsRight(operations: seq<Operation>)
    ensures var h := Made(Step, State([], []), operations);
            var s := Exec(Step, State([], []), operations);
            Lists(s.list, Deadlines(h)) && Called(s.fired, Met(h))
  {
    RunIsRight(operations);
  }

  lemma RunIsRight(operations: seq<Operation>)
    ensures Inv(Exec(Step, State([], []), operations), Made(Step, State([], []), operations))
  {
    var start := State([], []);
    forall s, h, o | Inv(s, h) && Step(s, o).Some? ensures Inv(Step(s, o).value, h + [o]) { StepKeepsInv(s, h, o); }
    History(Step, (s, h) => Inv(s, h), start, [], operations);
    assert [] + Made(Step, start, operations) == Made(Step, start, operations);
  }

  /** An operation can be made exactly if its timer is new, or is in use and is not to be
      set to an earlier deadline. */
  lemma OperationsExactly(operations: seq<Operation>, o: Operation)
    ensures var h := Made(Step, State([], []), operations);
            Step(Exec(Step, State([], []), operations), o).Some? <==>
              match o
              case Add(id, _) => id !in Deadlines(h) && id !in Met(h)
              case Delete(id) => id in Deadlines(h)
              case Lengthen(id, t) => id in Deadlines(h) && t >= Deadlines(h)[id]
              case Tick(_) => true
  {
    RunIsRight(operations);
    var s, h := Exec(Step, State([], []), operations), Made(Step, State([], []), operations);
    if !o.Tick? {
      FoundExactly(s.list, Deadlines(h), o.id);
    }
  }

  lemma FoundExactly(l: seq<Entry<int>>, deadlines: map<int, int>, id: int)
    requires Lists(l, deadlines)
    ensures var k := IndexOf(l, id);
            (k < |l| <==> id in deadlines) && (k < |l| ==> l[k].expire == deadlines[id])
  {
    var k := IndexOf(l, id);
    if k < |l| { assert l[k] in l; }
    if id in Ids(l) { var i :| 0 <= i < |l| && l[i].id == id; }
  }

  /** A tick calls back in the order of the deadlines. */
  lemma TickIsInOrder(operations: seq<Operation>, now: int)
    ensures var s := Exec(Step, State([], []), operations);
            var n := Step(s, Tick(now)).value;
            var h := Made(Step, State([], []), operations);
            && s.fired <= n.fired
            && (forall k :: |s.fired| <= k < |n.fired| ==>
                  n.fired[k] in Deadlines(h) && Deadlines(h)[n.fired[k]] <= now)
            && (forall j, k :: |s.fired| <= j < k < |n.fired| ==> Deadlines(h)[n.fired[j]] <= Deadlines(h)[n.fired[k]])
  {
    ListIsRight(operations);
    var s := Exec(Step, State([], []), operations);
    DueIsExact(s.list, now);
    var d := Due(s.list, now);
    forall i | 0 <= i < d ensures s.list[i] in s.list && s.list[..d][i] == s.list[i] {
    }
  }
}
