/** A sorted list of timers as a value, and what the operations of
    timer/timer_list/timer_list.cpp make of it. */
module TimerSpec {

  datatype Entry<T> = Entry(id: T, expire: int)

  ghost predicate Sorted<T>(l: seq<Entry<T>>) {
    forall i, j :: 0 <= i < j < |l| ==> l[i].expire <= l[j].expire
  }

  ghost predicate Distinct<T>(l: seq<Entry<T>>) {
    forall i, j :: 0 <= i < j < |l| ==> l[i].id != l[j].id
  }

  /** The first entry from `from` on that expires no earlier than t (lines 33-38). */
  function Position<T>(l: seq<Entry<T>>, from: nat, t: int): (p: nat)
    requires from <= |l|
    ensures from <= p <= |l|
    ensures forall i :: from <= i < p ==> l[i].expire < t
    ensures p < |l| ==> l[p].expire >= t
    decreases |l| - from
  {
    if from == |l| || l[from].expire >= t then from else Position(l, from + 1, t)
  }

  function Insert<T>(l: seq<Entry<T>>, from: nat, e: Entry<T>): seq<Entry<T>>
    requires from <= |l|
  {
    var p := Position(l, from, e.expire);
    l[..p] + [e] + l[p..]
  }

  function Remove<T>(l: seq<Entry<T>>, k: nat): seq<Entry<T>>
    requires k < |l|
  {
    l[..k] + l[k + 1..]
  }

  /** Lines 77-98 for entry k whose deadline has been set to t. */
  function Adjust<T>(l: seq<Entry<T>>, k: nat, t: int): (r: seq<Entry<T>>)
    requires k < |l|
    ensures |r| == |l|
  {
    if k == |l| - 1 || t < l[k + 1].expire then l[k := Entry(l[k].id, t)]
    else Insert(Remove(l, k), k, Entry(l[k].id, t))
  }

  /** How many entries lines 109-116 take off the front at time `now`. */
  function Due<T>(l: seq<Entry<T>>, now: int): (d: nat)
    ensures d <= |l|
    ensures forall i :: 0 <= i < d ==> l[i].expire <= now
    ensures d < |l| ==> l[d].expire > now
  {
    if l == [] || l[0].expire > now then 0 else 1 + Due(l[1..], now)
  }

  lemma InsertIsSorted<T>(l: seq<Entry<T>>, from: nat, e: Entry<T>)
    requires Sorted(l) && from <= |l| && (from > 0 ==> l[from - 1].expire <= e.expire)
    ensures Sorted(Insert(l, from, e))
  {
    var p := Position(l, from, e.expire);
    var n := Insert(l, from, e);
    assert forall i :: 0 <= i < p ==> n[i] == l[i] && l[i].expire <= e.expire;
    assert forall i :: p < i < |n| ==> n[i] == l[i - 1] && l[i - 1].expire >= e.expire;
  }

  lemma InsertAdds<T>(l: seq<Entry<T>>, from: nat, e: Entry<T>)
    requires from <= |l|
    ensures multiset(Insert(l, from, e)) == multiset(l) + multiset{e}
  {
    assert l == l[..Position(l, from, e.expire)] + l[Position(l, from, e.expire)..];
  }

  lemma RemoveIsSorted<T>(l: seq<Entry<T>>, k: nat)
    requires Sorted(l) && k < |l|
    ensures Sorted(Remove(l, k))
  {
  }

  lemma RemoveTakes<T>(l: seq<Entry<T>>, k: nat)
    requires k < |l|
    ensures multiset(Remove(l, k)) == multiset(l) - multiset{l[k]}
  {
    assert l == l[..k] + [l[k]] + l[k + 1..];
  }

  /** Adjusting leaves the list sorted exactly when the new deadline is not earlier than
      that of the timer in front: always, if it has been lengthened. */
  lemma AdjustIsSortedExactly<T>(l: seq<Entry<T>>, k: nat, t: int)
    requires Sorted(l) && k < |l|
    ensures Sorted(Adjust(l, k, t)) <==> k == 0 || l[k - 1].expire <= t
  {
    RemoveIsSorted(l, k);
    if k < |l| - 1 && t >= l[k + 1].expire {
      InsertIsSorted(Remove(l, k), k, Entry(l[k].id, t));
    } else if k > 0 {
      assert Adjust(l, k, t)[k - 1] == l[k - 1] && Adjust(l, k, t)[k].expire == t;
    }
  }

  lemma LengtheningIsSorted<T>(l: seq<Entry<T>>, k: nat, t: int)
    requires Sorted(l) && k < |l| && l[k].expire <= t
    ensures Sorted(Adjust(l, k, t))
  {
    AdjustIsSortedExactly(l, k, t);
  }

  /** Adjusting only permutes the list: the timer moves towards the tail, the others keep their order. */
  lemma AdjustPermutes<T>(l: seq<Entry<T>>, k: nat, t: int) returns (j: nat)
    requires k < |l|
    ensures k <= j < |l| == |Adjust(l, k, t)|
    ensures Adjust(l, k, t)[j] == Entry(l[k].id, t)
    ensures Remove(Adjust(l, k, t), j) == Remove(l, k)
  {
    if k == |l| - 1 || t < l[k + 1].expire {
      j := k;
    } else {
      j := Position(Remove(l, k), k, t);
    }
  }

  /** On a sorted list a tick takes exactly the timers that are due. */
  lemma DueIsExact<T>(l: seq<Entry<T>>, now: int)
    requires Sorted(l)
    ensures forall i :: 0 <= i < |l| ==> (i < Due(l, now) <==> l[i].expire <= now)
  {
  }

  // ---- Which timers are in the list.

  ghost function Ids<T>(l: seq<Entry<T>>): (ids: set<T>)
    ensures forall i :: 0 <= i < |l| ==> l[i].id in ids
    ensures forall x :: x in ids ==> exists i :: 0 <= i < |l| && l[i].id == x
  {
    set i | 0 <= i < |l| :: l[i].id
  }

  /** Where a timer is in the list; its length if it is not. */
  function IndexOf(l: seq<Entry<int>>, id: int): (k: nat)
    ensures k <= |l|
    ensures k < |l| ==> l[k].id == id
    ensures forall i :: 0 <= i < k ==> l[i].id != id
  {
    if l == [] || l[0].id == id then 0 else 1 + IndexOf(l[1..], id)
  }

  /** Inserting a new timer adds it and nothing else. */
  lemma InsertIds<T>(l: seq<Entry<T>>, from: nat, e: Entry<T>)
    requires Distinct(l) && from <= |l| && e.id !in Ids(l)
    ensures Distinct(Insert(l, from, e)) && Ids(Insert(l, from, e)) == Ids(l) + {e.id}
    ensures forall x :: x in Insert(l, from, e) ==> x == e || x in l
  {
    var p := Position(l, from, e.expire);
    var n := Insert(l, from, e);
    assert n[p] == e;
    forall i | 0 <= i < |l| ensures l[i].id in Ids(n) {
      assert n[if i < p then i else i + 1] == l[i];
    }
  }

  /** Removing the timer at position k removes it and nothing else. */
  lemma RemoveIds<T>(l: seq<Entry<T>>, k: nat)
    requires Distinct(l) && k < |l|
    ensures Distinct(Remove(l, k)) && Ids(Remove(l, k)) == Ids(l) - {l[k].id}
    ensures forall x :: x in Remove(l, k) ==> x in l && x.id != l[k].id
  {
    var n := Remove(l, k);
    forall i | 0 <= i < |l| && i != k ensures l[i].id in Ids(n) {
      assert n[if i < k then i else i - 1] == l[i];
    }
  }

  lemma RenewIds<T>(l: seq<Entry<T>>, k: nat, t: int)
    requires Distinct(l) && k < |l|
    ensures var n := l[k := Entry(l[k].id, t)];
            Distinct(n) && Ids(n) == Ids(l) && forall x :: x in n ==> x == n[k] || (x in l && x.id != l[k].id)
  {
    var n := l[k := Entry(l[k].id, t)];
    assert forall i :: 0 <= i < |l| ==> n[i].id == l[i].id;
    forall x | x in n ensures x == n[k] || (x in l && x.id != l[k].id) {
      var i :| 0 <= i < |n| && n[i] == x;
      assert i != k ==> x == l[i];
    }
  }

  /** Adjusting keeps the timers. */
  lemma AdjustIds<T>(l: seq<Entry<T>>, k: nat, t: int)
    requires Distinct(l) && k < |l|
    ensures Distinct(Adjust(l, k, t)) && Ids(Adjust(l, k, t)) == Ids(l)
    ensures forall x :: x in Adjust(l, k, t) ==> x == Entry(l[k].id, t) || (x in l && x.id != l[k].id)
  {
    if k == |l| - 1 || t < l[k + 1].expire {
      RenewIds(l, k, t);
    } else {
      ReinsertIds(l, k, Entry(l[k].id, t));
    }
  }

  lemma ReinsertIds<T>(l: seq<Entry<T>>, k: nat, e: Entry<T>)
    requires Distinct(l) && k < |l| && e.id == l[k].id
    ensures var n := Insert(Remove(l, k), k, e);
            Distinct(n) && Ids(n) == Ids(l) && forall x :: x in n ==> x == e || (x in l && x.id != l[k].id)
  {
    RemoveIds(l, k);
    InsertIds(Remove(l, k), k, e);
    assert l[k].id in Ids(l);
  }

  /** A tick keeps the timers that are not due. */
  lemma TickIds<T>(l: seq<Entry<T>>, d: nat)
    requires Distinct(l) && d <= |l|
    ensures Distinct(l[d..]) && Ids(l[d..]) == Ids(l) - Ids(l[..d])
    ensures forall x :: x in l[d..] ==> x in l
  {
    forall i | d <= i < |l| ensures l[i].id in Ids(l[d..]) {
      assert l[d..][i - d] == l[i];
    }
    forall i | 0 <= i < d ensures l[i].id in Ids(l[..d]) {
      assert l[..d][i] == l[i];
    }
  }
}
