/** The doubly linked, sorted timer list of timer/timer_list/timer_list.{h,cpp}. */
module LinkedTimers {
  import opened TimerSpec

  class MyTimer {
    var expireTime: int
    const userData: int
    var pre: MyTimer?
    var next: MyTimer?

    constructor (et: int, arg: int)
      ensures expireTime == et && userData == arg && pre == null && next == null
    {
      expireTime := et;
      userData := arg;
      pre, next := null, null;
    }
  }

  function At(l: seq<Entry<MyTimer>>, i: int): MyTimer? {
    if 0 <= i < |l| then l[i].id else null
  }

  function NodeOrNone(timer: MyTimer?): set<MyTimer> {
    if timer == null then {} else {timer}
  }

  ghost function NodesOf(l: seq<Entry<MyTimer>>): set<MyTimer> {
    set i | 0 <= i < |l| :: l[i].id
  }

  /** l is the list from `head` to `tail` with its deadlines: links and back links agree
      and no node occurs twice. */
  ghost predicate Linked(head: MyTimer?, tail: MyTimer?, l: seq<Entry<MyTimer>>)
    reads NodesOf(l)
  {
    && head == At(l, 0) && tail == At(l, |l| - 1)
    && (forall i {:trigger l[i].id.pre} :: 0 <= i < |l| ==> l[i].id.pre == At(l, i - 1))
    && (forall i {:trigger l[i].id.next} :: 0 <= i < |l| ==> l[i].id.next == At(l, i + 1))
    && (forall i {:trigger l[i].id.expireTime} :: 0 <= i < |l| ==> l[i].id.expireTime == l[i].expire)
    && (forall i, j :: 0 <= i < j < |l| ==> l[i].id != l[j].id)
  }

  lemma Spliced(l: seq<Entry<MyTimer>>, k: nat, e: Entry<MyTimer>)
    requires k <= |l|
    ensures NodesOf(l[..k] + [e] + l[k..]) == NodesOf(l) + {e.id}
  {
    var n := l[..k] + [e] + l[k..];
    assert n[k] == e;
    forall i | 0 <= i < |l| ensures l[i].id in NodesOf(n) {
      assert n[if i < k then i else i + 1] == l[i];
    }
  }

  lemma Taken(l: seq<Entry<MyTimer>>, k: nat)
    requires k < |l| && forall i, j :: 0 <= i < j < |l| ==> l[i].id != l[j].id
    ensures NodesOf(Remove(l, k)) == NodesOf(l) - {l[k].id}
  {
    var n := Remove(l, k);
    forall i | 0 <= i < |l| && i != k ensures l[i].id in NodesOf(n) {
      assert n[if i < k then i else i - 1] == l[i];
    }
  }

  class TimerList {
    var head: MyTimer?
    var tail: MyTimer?
    ghost var entries: seq<Entry<MyTimer>>

    ghost function Nodes(): set<MyTimer>
      reads this
    {
      NodesOf(entries)
    }

    ghost predicate Valid()
      reads this, Nodes()
    {
      Linked(head, tail, entries)
    }

    constructor ()
      ensures Valid() && entries == []
    {
      head, tail := null, null;
      entries := [];
    }

    /** A timer in no list, with no links. */
    ghost predicate Loose(timer: MyTimer)
      reads this, timer
    {
      timer !in Nodes() && timer.pre == null && timer.next == null
    }

    /** Lines 22-26; the source leaves the old head's `_pre` unset, see AddTimerAsWritten. */
    method PushFront(timer: MyTimer)
      requires Valid() && entries != [] && Loose(timer)
      modifies this, head`pre, timer`pre, timer`next
      ensures Valid() && entries == [Entry(timer, timer.expireTime)] + old(entries)
    {
      timer.next := head;
      head.pre := timer;
      head := timer;
      head.pre := null;
      entries := [Entry(timer, timer.expireTime)] + entries;
    }

    /** Lines 39-44. */
    method Append(timer: MyTimer)
      requires Valid() && entries != [] && timer !in Nodes()
      modifies this, tail`next, timer`pre
      ensures tail == timer && entries == old(entries) + [Entry(timer, timer.expireTime)]
      ensures timer.next == null ==> Valid()
    {
      tail.next := timer;
      timer.pre := tail;
      tail := timer;
      entries := entries + [Entry(timer, timer.expireTime)];
    }

    /** Lines 45-49; the source rereads tmp where it needs tmp's predecessor, see AddTimerAsWritten. */
    method InsertBefore(tmp: MyTimer, timer: MyTimer, ghost k: nat)
      requires Valid() && Loose(timer) && 0 < k < |entries| && entries[k].id == tmp && tmp.pre != null
      modifies this, tmp`pre, tmp.pre`next, timer`pre, timer`next
      ensures Valid() && entries == old(entries)[..k] + [Entry(timer, timer.expireTime)] + old(entries)[k..]
    {
      var pre := tmp.pre;
      timer.next := tmp;
      tmp.pre := timer;
      timer.pre := pre;
      pre.next := timer;
      entries := entries[..k] + [Entry(timer, timer.expireTime)] + entries[k..];
    }

    /** Lines 15-30, for a timer that is in no list. */
    method AddTimer(timer: MyTimer?)
      requires Valid() && (timer != null ==> Loose(timer))
      modifies this, Nodes()`pre, Nodes()`next, NodeOrNone(timer)`pre, NodeOrNone(timer)`next
      ensures Valid() && Nodes() == old(Nodes()) + NodeOrNone(timer)
      ensures entries == if timer == null then old(entries) else Insert(old(entries), 0, Entry(timer, timer.expireTime))
    {
      if timer == null {
        return;
      }
      AddLoose(timer);
    }

    /** Lines 18-29. */
    method AddLoose(timer: MyTimer)
      requires Valid() && Loose(timer)
      modifies this, Nodes()`pre, Nodes()`next, timer`pre, timer`next
      ensures Valid() && Nodes() == old(Nodes()) + {timer}
      ensures entries == Insert(old(entries), 0, Entry(timer, timer.expireTime))
    {
      ghost var l := entries;
      Spliced(l, 0, Entry(timer, timer.expireTime));
      if head == null {
        head := timer;
        tail := timer;
        entries := l[..0] + [Entry(timer, timer.expireTime)] + l[0..];
      } else if timer.expireTime < head.expireTime {
        assert entries[0].id.expireTime == entries[0].expire && Position(entries, 0, timer.expireTime) == 0;
        PushFront(timer);
        assert l[..0] + [entries[0]] + l[0..] == entries;
      } else {
        AddFrom(head, 0, timer);
      }
    }

    /** Lines 33-38: the first node from `start` on that expires no earlier than t. */
    method Search(start: MyTimer?, ghost from: nat, t: int) returns (tmp: MyTimer?, ghost k: nat)
      requires Valid() && from <= |entries| && start == At(entries, from)
      ensures k == Position(entries, from, t) && tmp == At(entries, Position(entries, from, t))
    {
      tmp, k := start, from;
      while tmp != null
        invariant from <= k <= |entries| && tmp == At(entries, k)
        invariant Position(entries, k, t) == Position(entries, from, t)
        decreases |entries| - k
      {
        assert tmp.expireTime == entries[k].expire && tmp.next == At(entries, k + 1);
        if tmp.expireTime >= t {
          break;
        }
        tmp := tmp.next;
        k := k + 1;
      }
    }

    /** Lines 39-49: puts the timer in front of `tmp`, or behind the tail. */
    method InsertAt(tmp: MyTimer?, timer: MyTimer, ghost k: nat)
      requires Valid() && Loose(timer) && entries != [] && k <= |entries| && tmp == At(entries, k)
      modifies this, Nodes()`pre, Nodes()`next, timer`pre, timer`next
      ensures Valid() && entries == old(entries)[..k] + [Entry(timer, timer.expireTime)] + old(entries)[k..]
    {
      assert k < |entries| ==> entries[k].id.pre == At(entries, k - 1);
      if tmp == null {
        assert entries[..k] == entries;
        Append(timer);
      } else if tmp == head {
        PushFront(timer);  // equal to the head: the source forgets to move `head`
      } else {
        InsertBefore(tmp, timer, k);
      }
    }

    /** Lines 32-50: insert before the first later node from `start` on. */
    method AddFrom(start: MyTimer?, ghost from: nat, timer: MyTimer)
      requires Valid() && Loose(timer) && entries != [] && from <= |entries| && start == At(entries, from)
      modifies this, Nodes()`pre, Nodes()`next, timer`pre, timer`next
      ensures Valid() && Nodes() == old(Nodes()) + {timer}
      ensures entries == Insert(old(entries), from, Entry(timer, timer.expireTime))
    {
      var tmp, k := Search(start, from, timer.expireTime);
      Spliced(entries, k, Entry(timer, timer.expireTime));
      InsertAt(tmp, timer, k);
    }

    /** Lines 60-61. */
    method DropHead()
      requires Valid() && |entries| > 1
      modifies this, head.next`pre
      ensures Valid() && entries == TimerSpec.Remove(old(entries), 0)
    {
      assert head.next == At(entries, 1);
      head := head.next;
      head.pre := null;
      entries := TimerSpec.Remove(entries, 0);
    }

    /** Lines 65-66. */
    method DropTail()
      requires Valid() && |entries| > 1
      modifies this, tail.pre`next
      ensures Valid() && entries == TimerSpec.Remove(old(entries), |old(entries)| - 1)
    {
      assert tail.pre == At(entries, |entries| - 2);
      tail := tail.pre;
      tail.next := null;
      entries := TimerSpec.Remove(entries, |entries| - 1);
    }

    /** Lines 70-71. */
    method DropMiddle(timer: MyTimer, ghost k: nat)
      requires Valid() && 0 < k < |entries| - 1 && entries[k].id == timer
      modifies this, timer.next`pre, timer.pre`next
      ensures Valid() && entries == TimerSpec.Remove(old(entries), k)
    {
      assert timer.pre == At(entries, k - 1) && timer.next == At(entries, k + 1);
      timer.next.pre := timer.pre;
      timer.pre.next := timer.next;
      entries := TimerSpec.Remove(entries, k);
    }

    /** Lines 52-74, for the node at position k. */
    method DeleteTimer(timer: MyTimer?, ghost k: nat)
      requires Valid() && (timer != null ==> k < |entries| && entries[k].id == timer)
      modifies this, Nodes()`pre, Nodes()`next
      ensures Valid() && entries == if timer == null then old(entries) else TimerSpec.Remove(old(entries), k)
      ensures Nodes() == if timer == null then old(Nodes()) else old(Nodes()) - {timer}
      ensures timer != null ==> timer.pre == old(timer.pre) && timer.next == old(timer.next)
    {
      if timer == null {
        return;
      }
      Taken(entries, k);
      assert timer.pre == At(entries, k - 1) && timer.next == At(entries, k + 1);
      if head == timer && timer == tail {
        head := null;
        tail := null;
        entries := TimerSpec.Remove(entries, k);
      } else if head == timer {
        DropHead();
      } else if tail == timer {
        DropTail();
      } else {
        DropMiddle(timer, k);
      }
    }

    /** For a timer that is in no list. */
    method ClearLinks(timer: MyTimer)
      requires Valid() && timer !in Nodes()
      modifies timer`pre, timer`next
      ensures Valid() && Loose(timer)
    {
      timer.next := null;
      timer.pre := null;
    }

    /** Lines 87-88 and 93-94 unlink the node at position k as deleteTimer does.  This also
        clears its links; the source leaves `_next` stale, see AdjustAsWritten. */
    method Detach(timer: MyTimer, ghost k: nat)
      requires Valid() && k < |entries| && entries[k].id == timer
      modifies this, Nodes()`pre, Nodes()`next
      ensures Valid() && Loose(timer) && Nodes() == old(Nodes()) - {timer}
      ensures entries == TimerSpec.Remove(old(entries), k)
    {
      DeleteTimer(timer, k);
      ClearLinks(timer);
    }

    /** timer_list.h, setExpireTime, for the node at position k. */
    method SetExpireTime(timer: MyTimer, ghost k: nat, t: int)
      requires Valid() && k < |entries| && entries[k].id == timer
      modifies this`entries, timer`expireTime
      ensures Valid() && Nodes() == old(Nodes())
      ensures entries == old(entries)[k := Entry(timer, t)] && timer.expireTime == t
    {
      ghost var l := entries[k := Entry(timer, t)];
      assert forall i :: 0 <= i < |l| ==> l[i].id == entries[i].id;
      entries := l;
      timer.expireTime := t;
    }

    /** Lines 86-97: takes the node at position k out and inserts it again from there on. */
    method Reinsert(timer: MyTimer, ghost k: nat)
      requires Valid() && k < |entries| - 1 && entries[k].id == timer
      modifies this, Nodes()`pre, Nodes()`next
      ensures Valid() && Nodes() == old(Nodes())
      ensures entries == Insert(TimerSpec.Remove(old(entries), k), k, Entry(timer, timer.expireTime))
    {
      var next := timer.next;
      assert next == At(entries, k + 1) && (head == timer <==> k == 0) && timer in Nodes();
      var first := head == timer;
      Detach(timer, k);
      if first {
        AddTimer(timer);
      } else {
        AddFrom(next, k, timer);
      }
    }

    /** Lines 77-98, for the node at position k, whose deadline has been set anew. */
    method Adjust(timer: MyTimer?, ghost k: nat)
      requires Valid() && (timer != null ==> k < |entries| && entries[k].id == timer)
      modifies this, Nodes()`pre, Nodes()`next
      ensures Valid() && Nodes() == old(Nodes())
      ensures entries == if timer == null then old(entries) else TimerSpec.Adjust(old(entries), k, timer.expireTime)
    {
      if timer == null {
        return;
      }
      var next := timer.next;
      assert next == At(entries, k + 1) && timer.expireTime == entries[k].expire;
      assert next != null ==> next.expireTime == entries[k + 1].expire;
      if next == null || timer.expireTime < next.expireTime {
        assert entries[k := Entry(timer, timer.expireTime)] == entries;
        return;
      }
      Reinsert(timer, k);
    }

    /** Lines 112-115: calls back the head, deletes it and gives the next node. */
    method Expire(cur: MyTimer) returns (next: MyTimer?, user: int)
      requires Valid() && cur == head
      modifies this, Nodes()`pre, Nodes()`next
      ensures Valid() && next == head && user == cur.userData && entries == old(entries)[1..]
    {
      user := cur.userData;
      assert cur == entries[0].id && cur.next == At(entries, 1);
      next := cur.next;
      assert TimerSpec.Remove(entries, 0) == entries[1..];
      DeleteTimer(cur, 0);
    }

    /** Lines 107-116 at time `now`: calls back the timers that are due, from the head,
        and deletes them. */
    method CallBackDue(now: int) returns (fired: seq<int>)
      requires Valid()
      modifies this, Nodes()`pre, Nodes()`next
      ensures Valid() && entries == old(entries)[Due(old(entries), now)..]
      ensures fired == Users(old(entries)[..Due(old(entries), now)])
    {
      fired := [];
      ghost var l, d := entries, 0;
      var cur := head;
      while cur != null
        invariant Valid() && cur == head && d <= |l| && entries == l[d..] && NodesOf(entries) <= NodesOf(l)
        invariant fired == Users(l[..d])
        invariant Due(l, now) == d + Due(l[d..], now)
        decreases |l| - d
      {
        assert cur == entries[0].id && cur.expireTime == entries[0].expire;
        if cur.expireTime > now {
          break;
        }
        NextIsDue(l, d, now);
        var user;
        cur, user := Expire(cur);
        fired := fired + [user];
        d := d + 1;
      }
    }

    /** Lines 101-117. */
    method Tick(now: int) returns (fired: seq<int>)
      requires Valid()
      modifies this, Nodes()`pre, Nodes()`next
      ensures Valid() && entries == old(entries)[Due(old(entries), now)..]
      ensures fired == Users(old(entries)[..Due(old(entries), now)])
    {
      fired := [];
      if head == null {
        return;
      }
      fired := CallBackDue(now);
    }

    // ---- The source's own pointer statements.

    /** Lines 32-50 as written: line 47 rereads tmp, so a timer that goes in front of a
        node is tied into a cycle with it and the list is lost.  Only a timer that goes
        behind the tail, and whose own `_next` is null, leaves a list. */
    method AddFromAsWritten(start: MyTimer?, ghost from: nat, timer: MyTimer)
      requires Valid() && timer !in Nodes() && entries != [] && from <= |entries| && start == At(entries, from)
      modifies this, Nodes()`pre, Nodes()`next, timer`pre, timer`next
      ensures (exists s: seq<Entry<MyTimer>> :: Linked(head, tail, s)) <==>
              old(timer.next == null && Position(entries, from, timer.expireTime) == |entries|)
    {
      var tmp, k := Search(start, from, timer.expireTime);
      ghost var before := entries;
      if tmp == null {
        Append(timer);
        if timer.next == null {
          assert Linked(head, tail, entries);
        } else {
          StaleTail(head, tail);
        }
        return;
      }
      timer.next := tmp;
      tmp.pre := timer;
      tmp := timer.next;
      timer.pre := tmp;
      tmp.next := timer;
      Cycle(head, tail, before, k, timer);
    }

    /** Lines 15-30 as written, on a sorted list: there is still a list exactly when the
        timer went behind the tail, or into an empty list. */
    method AddTimerAsWritten(timer: MyTimer)
      requires Valid() && timer !in Nodes() && Sorted(entries)
      modifies this, Nodes()`pre, Nodes()`next, timer`pre, timer`next
      ensures (exists s: seq<Entry<MyTimer>> :: Linked(head, tail, s)) <==>
              old(timer.next == null && if entries == [] then timer.pre == null else tail.expireTime < timer.expireTime)
    {
      if head == null {
        head := timer;
        tail := timer;
        Single(timer);
        if timer.pre == null && timer.next == null { assert Linked(head, tail, [Entry(timer, timer.expireTime)]); }
      } else if timer.expireTime < head.expireTime {
        assert entries[0].id.expireTime == entries[0].expire;
        assert tail.expireTime == entries[|entries| - 1].expire;
        timer.next := head;
        head := timer;
        head.pre := null;
        LooseHead(head, tail);
      } else {
        assert tail.expireTime == entries[|entries| - 1].expire;
        AddFromAsWritten(head, 0, timer);
      }
    }

    /** Lines 77-98 as written: the list survives exactly when the timer need not move. */
    method AdjustAsWritten(timer: MyTimer, ghost k: nat)
      requires Valid() && k < |entries| && entries[k].id == timer
      requires Sorted(TimerSpec.Remove(entries, k))
      modifies this, Nodes()`pre, Nodes()`next
      ensures (exists s: seq<Entry<MyTimer>> :: Linked(head, tail, s)) <==>
              old(timer.next == null || timer.expireTime < timer.next.expireTime)
    {
      assert timer.next == At(entries, k + 1) && timer.pre == At(entries, k - 1) && timer in Nodes();
      var next := timer.next;
      if next == null || timer.expireTime < next.expireTime {
        assert Linked(head, tail, entries);
        return;
      }
      var first := head == timer;
      DeleteTimer(timer, k);  // lines 87-88 and 93-94 unlink as lines 60-61 and 70-71 do
      if first {
        AddTimerAsWritten(timer);
      } else {
        AddFromAsWritten(timer.next, k, timer);
      }
    }
  }

  /** The chain from the head follows the links. */
  lemma {:induction false} ChainFollows(head: MyTimer?, tail: MyTimer?, s: seq<Entry<MyTimer>>,
      l: seq<Entry<MyTimer>>, j: nat)
    requires Linked(head, tail, s) && j < |l| && head == l[0].id
    requires forall i :: 0 <= i < j ==> l[i].id.next == l[i + 1].id
    ensures j < |s| && s[j].id == l[j].id
  {
    if j > 0 {
      ChainFollows(head, tail, s, l, j - 1);
      assert l[j - 1].id.next == l[j].id;
      assert s[j - 1].id.next == At(s, j);
    }
  }

  /** A node on the chain that is tied to another in a cycle: no list. */
  lemma Cycle(head: MyTimer?, tail: MyTimer?, l: seq<Entry<MyTimer>>, k: nat, timer: MyTimer)
    requires k < |l| && head == l[0].id
    requires forall i :: 0 <= i < k ==> l[i].id.next == l[i + 1].id
    requires l[k].id.next == timer && timer.next == l[k].id
    ensures forall s: seq<Entry<MyTimer>> :: !Linked(head, tail, s)
  {
    forall s: seq<Entry<MyTimer>> ensures !Linked(head, tail, s) {
      if Linked(head, tail, s) {
        ChainFollows(head, tail, s, l, k);
        if s[k].id.next == At(s, k + 1) {}
        if k + 1 < |s| && s[k + 1].id.next == At(s, k + 2) {}
      }
    }
  }

  lemma Single(timer: MyTimer)
    ensures (exists s: seq<Entry<MyTimer>> :: Linked(timer, timer, s)) <==> timer.pre == null && timer.next == null
  {
    if timer.pre == null && timer.next == null {
      assert Linked(timer, timer, [Entry(timer, timer.expireTime)]);
    } else {
      forall s: seq<Entry<MyTimer>> ensures !Linked(timer, timer, s) {
        if s != [] && s[0].id.pre == At(s, -1) && s[|s| - 1].id.next == At(s, |s|) {}
      }
    }
  }

  /** A head whose successor does not point back: no list. */
  lemma LooseHead(head: MyTimer?, tail: MyTimer?)
    requires head != null && head.next != null && head.next.pre != head
    ensures forall s: seq<Entry<MyTimer>> :: !Linked(head, tail, s)
  {
    forall s: seq<Entry<MyTimer>> ensures !Linked(head, tail, s) {
      if s != [] && s[0].id.next == At(s, 1) && |s| > 1 && s[1].id.pre == At(s, 0) {}
      if s != [] && s[0].id.next == At(s, 1) {}
    }
  }

  /** A tail with a successor: no list. */
  lemma StaleTail(head: MyTimer?, tail: MyTimer?)
    requires tail != null && tail.next != null
    ensures forall s: seq<Entry<MyTimer>> :: !Linked(head, tail, s)
  {
    forall s: seq<Entry<MyTimer>> ensures !Linked(head, tail, s) {
      if s != [] && s[|s| - 1].id.next == At(s, |s|) {}
    }
  }

  ghost function Users(l: seq<Entry<MyTimer>>): (u: seq<int>)
    ensures |u| == |l| && forall i :: 0 <= i < |l| ==> u[i] == l[i].id.userData
  {
    seq(|l|, i requires 0 <= i < |l| => l[i].id.userData)
  }

  lemma NextIsDue(l: seq<Entry<MyTimer>>, d: nat, now: int)
    requires d < |l| && l[d].expire <= now
    ensures Due(l[d..], now) == 1 + Due(l[d + 1..], now)
    ensures l[d..][1..] == l[d + 1..] && NodesOf(l[d + 1..]) <= NodesOf(l)
    ensures Users(l[..d + 1]) == Users(l[..d]) + [l[d].id.userData]
  {
    assert l[d..][1..] == l[d + 1..];
  }
}
