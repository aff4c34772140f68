/** The event loop of timer/timer_list/main.cpp over the linked timer list, proved to
    do what TimerServer says. */
module TimerServerLoop {
  import opened Runs
  import opened TimerSpec
  import opened LinkedTimers
  import Spec = TimerServer

  /** The list with each node named by the descriptor of its user_data. */
  ghost function ByName(l: seq<Entry<MyTimer>>): (r: seq<Entry<int>>)
    ensures |r| == |l|
    ensures forall i :: 0 <= i < |l| ==> r[i] == Entry(l[i].id.userData, l[i].expire)
  {
    seq(|l|, i requires 0 <= i < |l| => Entry(l[i].id.userData, l[i].expire))
  }

  lemma {:induction false} SamePosition(l: seq<Entry<MyTimer>>, from: nat, t: int)
    requires from <= |l|
    ensures Position(ByName(l), from, t) == Position(l, from, t)
    decreases |l| - from
  {
    if from < |l| && l[from].expire < t {
      SamePosition(l, from + 1, t);
    }
  }

  lemma {:induction false} SameDue(l: seq<Entry<MyTimer>>, now: int)
    ensures Due(ByName(l), now) == Due(l, now)
  {
    if l != [] && l[0].expire <= now {
      SameDue(l[1..], now);
      assert ByName(l)[1..] == ByName(l[1..]);
    }
  }

  lemma SameInsert(l: seq<Entry<MyTimer>>, from: nat, e: Entry<MyTimer>)
    requires from <= |l|
    ensures ByName(Insert(l, from, e)) == Insert(ByName(l), from, Entry(e.id.userData, e.expire))
  {
    SamePosition(l, from, e.expire);
  }

  lemma SameRemove(l: seq<Entry<MyTimer>>, k: nat)
    requires k < |l|
    ensures ByName(Remove(l, k)) == Remove(ByName(l), k)
  {
  }

  lemma SameAdjust(l: seq<Entry<MyTimer>>, k: nat, t: int)
    requires k < |l|
    ensures ByName(TimerSpec.Adjust(l, k, t)) == TimerSpec.Adjust(ByName(l), k, t)
  {
    if k < |l| - 1 && l[k + 1].expire <= t {
      SameInsert(Remove(l, k), k, Entry(l[k].id, t));
      SameRemove(l, k);
    }
  }

  /** Each listed timer belongs to an open connection and is the one recorded for it,
      and each open connection's timer is listed. */
  ghost predicate Paired(nodes: set<MyTimer>, users: map<int, MyTimer>, open: set<int>) {
    && (forall n :: n in nodes ==> n.userData in open && n.userData in users && users[n.userData] == n)
    && (forall fd :: fd in open ==> fd in users && users[fd] in nodes && users[fd].userData == fd)
  }

  lemma PairedAdds(nodes: set<MyTimer>, users: map<int, MyTimer>, open: set<int>, timer: MyTimer)
    requires Paired(nodes, users, open) && timer.userData !in open
    ensures Paired(nodes + {timer}, users[timer.userData := timer], open + {timer.userData})
  {
  }

  lemma PairedRemoves(nodes: set<MyTimer>, users: map<int, MyTimer>, open: set<int>, timer: MyTimer)
    requires Paired(nodes, users, open) && timer in nodes
    ensures Paired(nodes - {timer}, users, open - {timer.userData})
  {
  }

  ghost function AsSet(fds: seq<int>): set<int> { set fd | fd in fds }

  class Server {
    const list: TimerList
    var users: map<int, MyTimer>  // users[fd].timer
    var open: set<int>            // descriptors the kernel has open
    var timeout: bool
    var stop: bool
    ghost var abs: Spec.State

    /** Connections and timers point at each other, and all is as the specification says. */
    ghost predicate Valid()
      reads this, list, list.Nodes()
    {
      && Agree()
      && abs.open == open && abs.timers == Timers()
      && abs.timeout == timeout && abs.stop == stop
    }

    /** Lines 45-74 and 77. */
    constructor (now: int)
      ensures Valid() && fresh(list) && abs == Spec.Start(now)
    {
      list := new TimerList();
      users := map[];
      open := {};
      timeout, stop := false, false;
      abs := Spec.Start(now);
    }

    /** Connections and timers point at each other. */
    ghost predicate Agree()
      reads this`users, this`open, list, list.Nodes()
    {
      list.Valid() && Paired(list.Nodes(), users, open)
    }

    ghost function Timers(): seq<Entry<int>>
      reads list
    {
      ByName(list.entries)
    }

    /** Lines 100-103. */
    method RecordTimer(confd: int, timer: MyTimer)
      requires Agree() && list.Loose(timer) && timer.userData == confd && confd !in open
      modifies this`users, this`open, list, list.Nodes(), timer
      ensures Agree() && open == old(open) + {confd} && list.Nodes() == old(list.Nodes()) + {timer}
      ensures Timers() == Insert(old(Timers()), 0, Entry(confd, old(timer.expireTime)))
    {
      ghost var l := Insert(list.entries, 0, Entry(timer, timer.expireTime));
      SameInsert(list.entries, 0, Entry(timer, timer.expireTime));
      PairedAdds(list.Nodes(), users, open, timer);
      open := open + {confd};
      users := users[confd := timer];
      list.AddTimer(timer);
      assert list.entries == l;
    }

    /** Lines 91-104 for the descriptor that accept returned. */
    method OnAccept(confd: int, now: int)
      requires Valid() && Spec.Accepted(abs, confd, now).Some?
      modifies this, list, list.Nodes()
      ensures Valid() && abs == Spec.Accepted(old(abs), confd, now).value
      ensures fresh(list.Nodes() - old(list.Nodes()))
    {
      var timer := new MyTimer(Spec.Deadline(now), confd);
      abs := Spec.Accepted(abs, confd, now).value;
      assert abs.timeout == timeout && abs.stop == stop;
      RecordTimer(confd, timer);
    }

    /** Where an open connection's timer is, in the list and by name. */
    lemma Listed(fd: int) returns (k: nat)
      requires Agree() && fd in open
      ensures k < |list.entries| && users[fd] == list.entries[k].id && k == IndexOf(Timers(), fd)
      ensures users[fd].userData == fd
    {
      k :| k < |list.entries| && list.entries[k].id == users[fd];
      var i := IndexOf(Timers(), fd);
      assert Timers()[k].id == fd;
      assert list.entries[i].id in list.Nodes() && list.entries[k].id in list.Nodes();
    }

    /** Lines 137-138 or 142-143: cb_func (lines 34-39) and deleteTimer. */
    method CloseAndDrop(sockfd: int)
      requires Agree() && sockfd in open && IndexOf(Timers(), sockfd) < |Timers()|
      modifies this`open, list, list.Nodes()
      ensures Agree() && open == old(open) - {sockfd} && list.Nodes() <= old(list.Nodes())
      ensures Timers() == Remove(old(Timers()), IndexOf(old(Timers()), sockfd))
    {
      ghost var k := Listed(sockfd);
      var timer := users[sockfd];
      ghost var l := Remove(list.entries, k);
      SameRemove(list.entries, k);
      PairedRemoves(list.Nodes(), users, open, timer);
      open := open - {sockfd};
      list.DeleteTimer(timer, k);
      assert list.entries == l;
    }

    /** Lines 136-139 and 141-144, a read error or the client closing. */
    method OnHangup(sockfd: int)
      requires Valid() && Spec.HungUp(abs, sockfd).Some?
      modifies this, list, list.Nodes()
      ensures Valid() && abs == Spec.HungUp(old(abs), sockfd).value
      ensures list.Nodes() <= old(list.Nodes())
    {
      ghost var n := Spec.HungUp(abs, sockfd).value;
      assert n.timers == Remove(Timers(), IndexOf(Timers(), sockfd)) && n.open == open - {sockfd};
      abs := n;
      assert abs.timeout == timeout && abs.stop == stop;
      CloseAndDrop(sockfd);
    }

    /** Lines 148-149. */
    method RenewTimer(sockfd: int, t: int)
      requires Agree() && sockfd in open && IndexOf(Timers(), sockfd) < |Timers()|
      modifies list, list.Nodes()
      ensures Agree() && list.Nodes() == old(list.Nodes())
      ensures Timers() == TimerSpec.Adjust(old(Timers()), IndexOf(old(Timers()), sockfd), t)
    {
      ghost var k := Listed(sockfd);
      var timer := users[sockfd];
      AdjustIgnoresOld(list.entries, k, t);
      SameAdjust(list.entries, k, t);
      list.SetExpireTime(timer, k, t);
      list.Adjust(timer, k);
    }

    /** Lines 145-151, data from the client. */
    method OnData(sockfd: int, now: int)
      requires Valid() && Spec.Renewed(abs, sockfd, now).Some?
      modifies this, list, list.Nodes()
      ensures Valid() && abs == Spec.Renewed(old(abs), sockfd, now).value
      ensures list.Nodes() == old(list.Nodes())
    {
      abs := Spec.Renewed(abs, sockfd, now).value;
      assert abs.timeout == timeout && abs.stop == stop;
      RenewTimer(sockfd, Spec.Deadline(now));
    }

    /** cb_func, lines 34-39, for each timer that tick calls back. */
    method CloseAll(fired: seq<int>)
      requires list.Valid() && Paired(list.Nodes(), users, open - AsSet(fired))
      modifies this`open
      ensures Agree() && open == old(open) - AsSet(fired)
    {
      var i := 0;
      ghost var o := open;
      while i < |fired|
        invariant i <= |fired| && open == o - AsSet(fired[..i])
      {
        open := open - {fired[i]};
        assert fired[..i + 1] == fired[..i] + [fired[i]];
        i := i + 1;
      }
      assert fired[..i] == fired;
    }

    /** Line 155. */
    method TickAndClose(now: int)
      requires Agree()
      modifies this`open, list, list.Nodes()
      ensures Agree() && list.Nodes() <= old(list.Nodes())
      ensures var d := Due(old(Timers()), now);
              Timers() == old(Timers())[d..] && open == old(open) - Spec.Fds(old(Timers())[..d])
    {
      TickByName(list.entries, now, users, open);
      var fired := list.Tick(now);
      CloseAll(fired);
    }

    /** Lines 154-158 after an alarm. */
    method OnTick(now: int)
      requires Valid() && Spec.Ticked(abs, now).Some?
      modifies this, list, list.Nodes()
      ensures Valid() && abs == Spec.Ticked(old(abs), now).value
      ensures list.Nodes() <= old(list.Nodes())
    {
      abs := Spec.Ticked(abs, now).value;
      timeout := false;
      assert abs.timeout == timeout && abs.stop == stop;
      TickAndClose(now);
    }

    /** Lines 154-158, after the batch. */
    method OnEndOfBatch(now: int)
      requires Valid() && Spec.Step(abs, Spec.EndOfBatch(now)).Some?
      modifies this, list, list.Nodes()
      ensures Valid() && abs == Spec.Step(old(abs), Spec.EndOfBatch(now)).value
      ensures list.Nodes() <= old(list.Nodes())
    {
      if timeout {
        OnTick(now);
      } else {
        abs := Spec.Waited(abs, now).value;
      }
    }

    /** Lines 117-122. */
    method OnSignal(sigterm: bool)
      requires Valid() && abs.running
      modifies this`timeout, this`stop, this`abs
      ensures Valid() && abs == Spec.Step(old(abs), if sigterm then Spec.Terminate else Spec.Alarm).value
    {
      abs := if sigterm then abs.(stop := true) else abs.(timeout := true);
      if sigterm {
        stop := true;
      } else {
        timeout := true;
      }
    }

    /** Lines 89-158 for one event. */
    method Handle(e: Spec.Event)
      requires Valid() && Spec.Step(abs, e).Some?
      modifies this, list, list.Nodes()
      ensures Valid() && abs == Spec.Step(old(abs), e).value
      ensures fresh(list.Nodes() - old(list.Nodes()))
    {
      match e
      case Accept(fd, now) => OnAccept(fd, now);
      case Data(fd, now) => OnData(fd, now);
      case Again(fd) =>
      case Hangup(fd) => OnHangup(fd);
      case Terminate => OnSignal(true);
      case Alarm => OnSignal(false);
      case EndOfBatch(now) => OnEndOfBatch(now);
    }

    method HandleNext(ghost start: Spec.State, events: seq<Spec.Event>, i: nat)
      requires Valid() && i < |events| && Plain(events) && Handled(start, abs, events, i)
      modifies this, list, list.Nodes()
      ensures Valid() && Handled(start, abs, events, i + 1)
      ensures fresh(list.Nodes() - old(list.Nodes()))
    {
      NextEvent(start, abs, events, i);
      Handle(events[i]);
    }

    /** Lines 88-152: all events of a batch are handled, also after a SIGTERM. */
    method HandleAll(events: seq<Spec.Event>)
      requires Valid() && abs.running && Effective(Spec.Step, abs, events) && Plain(events)
      modifies this, list, list.Nodes()
      ensures Valid() && abs.running && abs == Exec(Spec.Step, old(abs), events)
      ensures fresh(list.Nodes() - old(list.Nodes()))
    {
      ghost var start := abs;
      var i := 0;
      assert events[0..] == events;
      while i < |events|
        invariant Valid() && i <= |events| && Handled(start, abs, events, i)
        invariant fresh(list.Nodes() - old(list.Nodes()))
      {
        HandleNext(start, events, i);
        i := i + 1;
      }
      assert events[i..] == [];
    }

    /** Lines 88-158. */
    method ServeBatch(b: Batch)
      requires Valid() && abs.running && Plain(b.events) && Effective(Spec.Step, abs, Events(b))
      modifies this, list, list.Nodes()
      ensures Valid() && abs == Exec(Spec.Step, old(abs), Events(b)) && abs.running == !stop
      ensures fresh(list.Nodes() - old(list.Nodes()))
    {
      LastOfBatch(abs, b);
      HandleAll(b.events);
      OnEndOfBatch(b.now);
    }

    method ServeNext(waits: seq<Wait>, ghost states: seq<Spec.State>, k: nat)
      requires Valid() && abs.running && Reached(states, waits, abs, k) && k < |waits| && waits[k].Ready?
      modifies this, list, list.Nodes()
      ensures Valid() && abs.running == !stop && Reached(states, waits, abs, k + 1)
      ensures fresh(list.Nodes() - old(list.Nodes()))
    {
      assert LeadsTo(states[k], waits[k], states[k + 1]);
      ServeBatch(waits[k].batch);
    }

    /** Lines 79-159, along the states that the waits lead to: the loop ends after the
        batch in which a SIGTERM came, or when epoll_wait fails. */
    method Loop(waits: seq<Wait>, ghost states: seq<Spec.State>) returns (served: nat)
      requires Valid() && abs.running == !stop && Reached(states, waits, abs, 0)
      modifies this, list, list.Nodes()
      ensures Valid() && abs.running == !stop && Reached(states, waits, abs, served)
      ensures served < |waits| ==> stop || waits[served].Failed?
    {
      served := 0;
      while !stop && served < |waits|
        invariant Valid() && abs.running == !stop && Reached(states, waits, abs, served)
        invariant fresh(list.Nodes() - old(list.Nodes()))
        decreases |waits| - served
      {
        if waits[served].Failed? {
          break;
        }
        ServeNext(waits, states, served);
        served := served + 1;
      }
    }

    /** The loop from where it starts. */
    method Serve(waits: seq<Wait>) returns (served: nat)
      requires Valid() && abs.running == !stop && Feasible(abs, waits)
      modifies this, list, list.Nodes()
      ensures Valid() && abs.running == !stop && served <= |waits|
      ensures served < |waits| ==> stop || waits[served].Failed?
      ensures abs == Exec(Spec.Step, old(abs), Flat(waits[..served]))
      ensures abs == Exec(Spec.Step, old(abs), Flat(waits))
    {
      ghost var states := PathOf(abs, waits);
      served := Loop(waits, states);
      PathLeads(states, waits, served);
      NoMoreWaits(states[0], abs, waits, served);
    }
  }

  /** What one epoll_wait reports, and the time after it has been handled. */
  datatype Batch = Batch(events: seq<Spec.Event>, now: int)

  /** epoll_wait reports a batch, which is empty if a signal interrupts it, or fails for
      another reason than that (line 84). */
  datatype Wait = Ready(batch: Batch) | Failed

  function Events(b: Batch): seq<Spec.Event> { b.events + [Spec.EndOfBatch(b.now)] }

  /** The reports of epoll_wait proper. */
  predicate Plain(events: seq<Spec.Event>) { forall i :: 0 <= i < |events| ==> !events[i].EndOfBatch? }

  /** The events up to a failure of epoll_wait. */
  function Flat(waits: seq<Wait>): seq<Spec.Event> {
    if waits == [] || waits[0].Failed? then [] else Events(waits[0].batch) + Flat(waits[1..])
  }

  /** As long as the server runs the kernel reports only events that can happen. */
  ghost predicate Feasible(s: Spec.State, waits: seq<Wait>)
    decreases |waits|
  {
    waits == [] || !s.running || waits[0].Failed? ||
      (Plain(waits[0].batch.events) && Effective(Spec.Step, s, Events(waits[0].batch))
       && Feasible(Exec(Spec.Step, s, Events(waits[0].batch)), waits[1..]))
  }

  predicate NoFailure(waits: seq<Wait>) { forall i :: 0 <= i < |waits| ==> !waits[i].Failed? }

  lemma {:induction false} FlatConcat(a: seq<Wait>, b: seq<Wait>)
    requires NoFailure(a)
    ensures Flat(a + b) == Flat(a) + Flat(b)
  {
    if a == [] {
      assert a + b == b;
    } else {
      assert (a + b)[1..] == a[1..] + b;
      FlatConcat(a[1..], b);
    }
  }

  /** A wait leads from s to n, as long as the server runs. */
  ghost predicate LeadsTo(s: Spec.State, wait: Wait, n: Spec.State) {
    s.running && wait.Ready? ==>
      && Plain(wait.batch.events) && Effective(Spec.Step, s, Events(wait.batch))
      && n == Exec(Spec.Step, s, Events(wait.batch))
  }

  /** The states before each wait and after the last. */
  ghost predicate Path(states: seq<Spec.State>, waits: seq<Wait>) {
    |states| == |waits| + 1 && forall k :: 0 <= k < |waits| ==> LeadsTo(states[k], waits[k], states[k + 1])
  }

  /** The first k waits have been served. */
  ghost predicate Reached(states: seq<Spec.State>, waits: seq<Wait>, s: Spec.State, k: nat) {
    && Path(states, waits) && k <= |waits| && s == states[k]
    && (forall j :: 0 <= j < k ==> states[j].running && waits[j].Ready?)
  }

  lemma Longer(s: Spec.State, states: seq<Spec.State>, waits: seq<Wait>)
    requires waits != [] && Path(states, waits[1..]) && LeadsTo(s, waits[0], states[0])
    ensures Path([s] + states, waits)
  {
    forall k | 0 <= k < |waits| ensures LeadsTo(([s] + states)[k], waits[k], ([s] + states)[k + 1]) {
      if k > 0 { assert LeadsTo(states[k - 1], waits[1..][k - 1], states[k]); }
    }
  }

  lemma {:induction false} PathOf(s: Spec.State, waits: seq<Wait>) returns (states: seq<Spec.State>)
    requires Feasible(s, waits)
    ensures Path(states, waits) && states[0] == s
    decreases |waits|
  {
    if waits == [] {
      states := [s];
    } else {
      var n := if s.running && waits[0].Ready? then Exec(Spec.Step, s, Events(waits[0].batch))
               else s.(running := false);
      var rest := PathOf(n, waits[1..]);
      Longer(s, rest, waits);
      states := [s] + rest;
    }
  }

  lemma {:induction false} PathLeads(states: seq<Spec.State>, waits: seq<Wait>, k: nat)
    requires Path(states, waits) && k <= |waits|
    requires forall j :: 0 <= j < k ==> states[j].running && waits[j].Ready?
    ensures NoFailure(waits[..k]) && states[k] == Exec(Spec.Step, states[0], Flat(waits[..k]))
  {
    if k > 0 {
      PathLeads(states, waits, k - 1);
      var events := Events(waits[k - 1].batch);
      assert LeadsTo(states[k - 1], waits[k - 1], states[k]);
      assert waits[..k] == waits[..k - 1] + [waits[k - 1]];
      FlatConcat(waits[..k - 1], [waits[k - 1]]);
      assert Flat([waits[k - 1]]) == events by {
        assert [waits[k - 1]][1..] == [];
      }
      ExecConcat(Spec.Step, states[0], Flat(waits[..k - 1]), events);
    }
  }

  lemma NoMoreWaits(start: Spec.State, s: Spec.State, waits: seq<Wait>, k: nat)
    requires k <= |waits| && NoFailure(waits[..k]) && s == Exec(Spec.Step, start, Flat(waits[..k]))
    requires k < |waits| ==> !s.running || waits[k].Failed?
    ensures s == Exec(Spec.Step, start, Flat(waits))
  {
    assert waits[..k] + waits[k..] == waits;
    FlatConcat(waits[..k], waits[k..]);
    ExecConcat(Spec.Step, start, Flat(waits[..k]), Flat(waits[k..]));
    if k < |waits| && !waits[k].Failed? { NothingAfterStop(s, Flat(waits[k..])); }
  }

  /** The first i events have led from `start` to s, and the others can come. */
  ghost predicate Handled(start: Spec.State, s: Spec.State, events: seq<Spec.Event>, i: nat) {
    && i <= |events| && s.running && Effective(Spec.Step, s, events[i..])
    && Exec(Spec.Step, s, events[i..]) == Exec(Spec.Step, start, events)
  }

  lemma NextEvent(start: Spec.State, s: Spec.State, events: seq<Spec.Event>, i: nat)
    requires i < |events| && Handled(start, s, events, i) && !events[i].EndOfBatch?
    ensures Spec.Step(s, events[i]).Some? && Handled(start, Spec.Step(s, events[i]).value, events, i + 1)
  {
    assert events[i..][0] == events[i] && events[i..][1..] == events[i + 1..];
  }

  lemma LastOfBatch(s: Spec.State, b: Batch)
    requires Effective(Spec.Step, s, Events(b))
    ensures Effective(Spec.Step, s, b.events)
    ensures var t := Exec(Spec.Step, s, b.events);
            var o := Spec.Step(t, Spec.EndOfBatch(b.now));
            o.Some? && o.value.running == !t.stop && o.value.stop == t.stop && Exec(Spec.Step, s, Events(b)) == o.value
  {
    EffectiveConcat(Spec.Step, s, b.events, [Spec.EndOfBatch(b.now)]);
    ExecConcat(Spec.Step, s, b.events, [Spec.EndOfBatch(b.now)]);
    var t := Exec(Spec.Step, s, b.events);
    var n := Spec.Step(t, Spec.EndOfBatch(b.now)).value;
    assert Exec(Spec.Step, t, [Spec.EndOfBatch(b.now)]) == Exec(Spec.Step, n, [Spec.EndOfBatch(b.now)][1..]);
  }

  lemma {:induction false} NothingAfterStop(s: Spec.State, events: seq<Spec.Event>)
    requires !s.running
    ensures Exec(Spec.Step, s, events) == s
    decreases |events|
  {
    if events != [] {
      NothingAfterStop(s, events[1..]);
    }
  }

  lemma PairedTicks(l: seq<Entry<MyTimer>>, d: nat, users: map<int, MyTimer>, open: set<int>)
    requires Paired(NodesOf(l), users, open) && d <= |l|
    requires forall i, j :: 0 <= i < j < |l| ==> l[i].id != l[j].id
    ensures Paired(NodesOf(l[d..]), users, open - AsSet(Users(l[..d]))) && NodesOf(l[d..]) <= NodesOf(l)
  {
    forall i | d <= i < |l| ensures l[i].id.userData !in Users(l[..d]) {
      assert l[i].id in NodesOf(l);
      assert forall j :: 0 <= j < d ==> l[j].id in NodesOf(l) && l[j].id.userData != l[i].id.userData;
    }
    forall i | 0 <= i < d ensures l[i].id.userData in Users(l[..d]) {
      assert Users(l[..d])[i] == l[i].id.userData;
    }
    forall i | d <= i < |l| ensures l[i].id in NodesOf(l[d..]) {
      assert l[d..][i - d] == l[i];
    }
  }

  /** What a tick means by name. */
  lemma TickByName(l: seq<Entry<MyTimer>>, now: int, users: map<int, MyTimer>, open: set<int>)
    requires Paired(NodesOf(l), users, open) && forall i, j :: 0 <= i < j < |l| ==> l[i].id != l[j].id
    ensures var d := Due(l, now);
            && Due(ByName(l), now) == d && ByName(l[d..]) == ByName(l)[d..]
            && Spec.Fds(ByName(l)[..d]) == AsSet(Users(l[..d]))
            && Paired(NodesOf(l[d..]), users, open - AsSet(Users(l[..d]))) && NodesOf(l[d..]) <= NodesOf(l)
  {
    var d := Due(l, now);
    SameDue(l, now);
    PairedTicks(l, d, users, open);
    assert ByName(l[d..]) == ByName(l)[d..];
    assert forall i :: 0 <= i < d ==> ByName(l)[..d][i].id == Users(l[..d])[i];
  }

  /** Adjusting looks at the new deadline only. */
  lemma AdjustIgnoresOld<T>(l: seq<Entry<T>>, k: nat, t: int)
    requires k < |l|
    ensures TimerSpec.Adjust(l[k := Entry(l[k].id, t)], k, t) == TimerSpec.Adjust(l, k, t)
  {
    var m := l[k := Entry(l[k].id, t)];
    assert Remove(m, k) == Remove(l, k);
  }
}
