/** The server of timer/timer_list/main.cpp as a step system over epoll events:
    connections, their timers in the sorted list, and the alarm. */
module TimerServer {
  import opened Runs
  import opened TimerSpec

  const TIMESLOT := 5

  /** When a connection active now is to be closed (lines 101 and 148). */
  function Deadline(now: int): int { now + 3 * TIMESLOT }

  /** `open` are the client descriptors open and registered with epoll, `timers` the list
      with the descriptor of each timer's user_data.  History: when each connection was
      last active, the times of the last tick and of the last event, and how many
      connections have been accepted and closed. */
  datatype State = State(
    open: set<int>, timers: seq<Entry<int>>, timeout: bool, stop: bool, running: bool,
    lastActive: map<int, int>, lastTick: int, clock: int, accepted: nat, closed: nat)

  /** One ready descriptor, or the end of the batch epoll_wait returned.  `now` is what
      time(NULL) gives. */
  datatype Event =
    | Accept(fd: int, now: int) // 91-104, with the descriptor accept returns
    | Data(fd: int, now: int)   // 145-151  recv > 0
    | Again(fd: int)            // 135-136  recv fails with EAGAIN
    | Hangup(fd: int)           // 136-139 and 141-144  read error or peer close
    | Terminate                 // 117-119  SIGTERM
    | Alarm                     // 120-122  SIGALRM
    | EndOfBatch(now: int)      // 154-158

  function Start(now: int): State { State({}, [], false, false, true, map[], now, now, 0, 0) }

  function Fds(l: seq<Entry<int>>): (fds: set<int>)
    ensures fds == Ids(l)
  {
    set i | 0 <= i < |l| :: l[i].id
  }

  /** None when there is no such event: the loop has ended, no such connection, a
      descriptor given out twice, a clock that runs backwards. */
  function Step(s: State, e: Event): Option<State> {
    if !s.running then None else
    match e
    case Accept(fd, now) => Accepted(s, fd, now)
    case Data(fd, now) => Renewed(s, fd, now)
    case Again(fd) => if fd in s.open then Some(s) else None
    case Hangup(fd) => HungUp(s, fd)
    case Terminate => Some(s.(stop := true))
    case Alarm => Some(s.(timeout := true))
    case EndOfBatch(now) => if s.timeout then Ticked(s, now) else Waited(s, now)
  }

  /** Lines 91-104. */
  function Accepted(s: State, fd: int, now: int): Option<State> {
    if fd in s.open || now < s.clock then None else
    Some(s.(open := s.open + {fd}, timers := Insert(s.timers, 0, Entry(fd, Deadline(now))),
            lastActive := s.lastActive[fd := now], clock := now, accepted := s.accepted + 1))
  }

  /** Lines 145-151. */
  function Renewed(s: State, fd: int, now: int): Option<State> {
    var k := IndexOf(s.timers, fd);
    if fd !in s.open || k == |s.timers| || now < s.clock then None else
    Some(s.(timers := Adjust(s.timers, k, Deadline(now)), lastActive := s.lastActive[fd := now], clock := now))
  }

  /** Lines 136-139 and 141-144. */
  function HungUp(s: State, fd: int): Option<State> {
    var k := IndexOf(s.timers, fd);
    if fd !in s.open || k == |s.timers| then None else
    Some(s.(open := s.open - {fd}, timers := Remove(s.timers, k), closed := s.closed + 1))
  }

  /** Lines 154-158, and the test in line 79. */
  function Ticked(s: State, now: int): Option<State> {
    if now < s.clock then None else
    var d := Due(s.timers, now);
    Some(s.(open := s.open - Fds(s.timers[..d]), timers := s.timers[d..], timeout := false, running := !s.stop,
            lastTick := now, clock := now, closed := s.closed + d))
  }

  function Waited(s: State, now: int): Option<State> {
    if now < s.clock then None else Some(s.(running := !s.stop, clock := now))
  }

  /** Connections and timers in one-to-one correspondence, each timer set three slots
      after the connection's last activity and not due at the last tick. */
  ghost predicate Inv(s: State) {
    && Sorted(s.timers) && Distinct(s.timers) && Ids(s.timers) == s.open
    && (forall e :: e in s.timers ==> TimerOk(s, e))
    && s.lastTick <= s.clock
    && s.accepted == s.closed + |s.timers|
  }

  ghost predicate TimerOk(s: State, e: Entry<int>) {
    && e.id in s.lastActive && e.expire == Deadline(s.lastActive[e.id])
    && s.lastActive[e.id] <= s.clock && s.lastTick < e.expire
  }

  /** A list in which fd's timer has been set anew makes a good state again. */
  lemma RenewalKeeps(s: State, n: State, fd: int, now: int)
    requires Inv(s) && s.clock <= now
    requires n == s.(open := s.open + {fd}, timers := n.timers, lastActive := s.lastActive[fd := now], clock := now,
                     accepted := s.closed + |n.timers|)
    requires Sorted(n.timers) && Distinct(n.timers) && Ids(n.timers) == n.open
    requires forall e :: e in n.timers ==> e == Entry(fd, Deadline(now)) || (e in s.timers && e.id != fd)
    ensures Inv(n)
  {
    forall e | e in n.timers ensures TimerOk(n, e) {
      if e in s.timers && e.id != fd { assert TimerOk(s, e); }
    }
  }

  lemma AcceptKeeps(s: State, fd: int, now: int)
    requires Inv(s) && Accepted(s, fd, now).Some?
    ensures Inv(Accepted(s, fd, now).value)
  {
    InsertIsSorted(s.timers, 0, Entry(fd, Deadline(now)));
    InsertIds(s.timers, 0, Entry(fd, Deadline(now)));
    assert forall e :: e in s.timers ==> e.id != fd;
    RenewalKeeps(s, Accepted(s, fd, now).value, fd, now);
  }

  lemma DataKeeps(s: State, fd: int, now: int)
    requires Inv(s) && Renewed(s, fd, now).Some?
    ensures Inv(Renewed(s, fd, now).value)
  {
    var k := IndexOf(s.timers, fd);
    assert TimerOk(s, s.timers[k]);
    LengtheningIsSorted(s.timers, k, Deadline(now));
    AdjustIds(s.timers, k, Deadline(now));
    assert s.open + {fd} == s.open;
    RenewalKeeps(s, Renewed(s, fd, now).value, fd, now);
  }

  lemma HangupKeeps(s: State, fd: int)
    requires Inv(s) && HungUp(s, fd).Some?
    ensures Inv(HungUp(s, fd).value)
  {
    RemoveIsSorted(s.timers, IndexOf(s.timers, fd));
    RemoveIds(s.timers, IndexOf(s.timers, fd));
  }

  lemma EndOfBatchKeeps(s: State, now: int)
    requires Inv(s) && Step(s, EndOfBatch(now)).Some?
    ensures Inv(Step(s, EndOfBatch(now)).value)
  {
    if s.timeout {
      TickKeeps(s, now);
    }
  }

  lemma TickKeeps(s: State, now: int)
    requires Inv(s) && Ticked(s, now).Some?
    ensures Inv(Ticked(s, now).value)
  {
    var d := Due(s.timers, now);
    DueIsExact(s.timers, now);
    TickIds(s.timers, d);
    forall e | e in s.timers[d..] ensures TimerOk(Ticked(s, now).value, e) {
      assert e in s.timers && TimerOk(s, e);
    }
  }

  lemma StepKeepsInv(s: State, e: Event)
    requires Inv(s) && Step(s, e).Some?
    ensures Inv(Step(s, e).value)
  {
    match e
    case Accept(fd, now) => AcceptKeeps(s, fd, now);
    case Data(fd, now) => DataKeeps(s, fd, now);
    case Hangup(fd) => HangupKeeps(s, fd);
    case EndOfBatch(now) => EndOfBatchKeeps(s, now);
    case _ =>
  }

  /** After any events, connections and timers agree. */
  lemma RunKeepsInv(start: int, events: seq<Event>)
    ensures Inv(Exec(Step, Start(start), events))
  {
    forall s, e | Inv(s) && Step(s, e).Some? ensures Inv(Step(s, e).value) { StepKeepsInv(s, e); }
    Invariant(Step, s => Inv(s), Start(start), events);
  }

  // ---- What the events ask for.

  /** When descriptor fd was last accepted or last sent data. */
  function LastHeard(h: seq<Event>, fd: int): Option<int> {
    if h == [] then None
    else
      match h[|h| - 1]
      case Accept(f, now) => if f == fd then Some(now) else LastHeard(h[..|h| - 1], fd)
      case Data(f, now) => if f == fd then Some(now) else LastHeard(h[..|h| - 1], fd)
      case _ => LastHeard(h[..|h| - 1], fd)
  }

  predicate Idle(h: seq<Event>, fd: int, now: int) {
    LastHeard(h, fd).Some? && now >= LastHeard(h, fd).value + 3 * TIMESLOT
  }

  /** An alarm has come since the last batch ended. */
  predicate AlarmUp(h: seq<Event>) {
    h != [] && (h[|h| - 1] == Alarm || (!h[|h| - 1].EndOfBatch? && AlarmUp(h[..|h| - 1])))
  }

  predicate Terminated(h: seq<Event>) { Terminate in h }

  /** The connections accepted that have neither hung up nor been idle at an alarm. */
  function OpenAfter(h: seq<Event>): set<int> {
    if h == [] then {}
    else
      var past := h[..|h| - 1];
      match h[|h| - 1]
      case Accept(fd, _) => OpenAfter(past) + {fd}
      case Hangup(fd) => OpenAfter(past) - {fd}
      case EndOfBatch(now) =>
        if AlarmUp(past) then set fd | fd in OpenAfter(past) && !Idle(past, fd, now) else OpenAfter(past)
      case _ => OpenAfter(past)
  }

  /** The time of the last event that has one, and of the last tick. */
  function TimeAfter(start: int, h: seq<Event>): int {
    if h == [] then start
    else
      match h[|h| - 1]
      case Accept(_, now) => now
      case Data(_, now) => now
      case EndOfBatch(now) => now
      case _ => TimeAfter(start, h[..|h| - 1])
  }

  function TickAfter(start: int, h: seq<Event>): int {
    if h == [] then start
    else
      var past := h[..|h| - 1];
      if h[|h| - 1].EndOfBatch? && AlarmUp(past) then h[|h| - 1].now else TickAfter(start, past)
  }

  /** The events have had their effect. */
  ghost predicate Heard(start: int, s: State, h: seq<Event>) {
    && s.open == OpenAfter(h)
    && (forall fd :: fd in s.open ==> fd in s.lastActive && LastHeard(h, fd) == Some(s.lastActive[fd]))
    && s.timeout == AlarmUp(h) && s.stop == Terminated(h)
    && s.clock == TimeAfter(start, h) && s.lastTick == TickAfter(start, h)
  }

  /** The loop goes on until a batch ends after a SIGTERM. */
  ghost predicate GoesOn(s: State, h: seq<Event>) {
    s.running <==> forall i, j :: 0 <= i < j < |h| ==> !(h[i] == Terminate && h[j].EndOfBatch?)
  }

  lemma GoesOnNext(s: State, h: seq<Event>, e: Event)
    requires GoesOn(s, h) && s.stop == Terminated(h) && Step(s, e).Some?
    ensures GoesOn(Step(s, e).value, h + [e])
  {
    var n := h + [e];
    assert forall i, j :: 0 <= i < j < |h| ==> n[i] == h[i] && n[j] == h[j];
    if e.EndOfBatch? && Terminated(h) {
      var i :| 0 <= i < |h| && h[i] == Terminate;
      assert n[i] == Terminate && n[|h|].EndOfBatch?;
    }
  }

  lemma TickIsHeard(s: State, h: seq<Event>, now: int)
    requires Inv(s) && s.open == OpenAfter(h) && now >= s.clock
    requires forall fd :: fd in s.open ==> fd in s.lastActive && LastHeard(h, fd) == Some(s.lastActive[fd])
    ensures Ticked(s, now).value.open == set fd | fd in s.open && !Idle(h, fd, now)
  {
    var d := Due(s.timers, now);
    DueIsExact(s.timers, now);
    forall fd | fd in s.open ensures fd in Ids(s.timers[..d]) <==> Idle(h, fd, now) {
      var i :| 0 <= i < |s.timers| && s.timers[i].id == fd;
      assert s.timers[i] in s.timers && TimerOk(s, s.timers[i]);
      if i < d { assert s.timers[..d][i].id == fd; }
    }
  }

  lemma StepIsHeard(start: int, s: State, h: seq<Event>, e: Event)
    requires Inv(s) && Heard(start, s, h) && Step(s, e).Some?
    ensures Heard(start, Step(s, e).value, h + [e])
  {
    assert (h + [e])[..|h|] == h;
    if e.EndOfBatch? { EndIsHeard(start, s, h, e.now); }
  }

  lemma EndIsHeard(start: int, s: State, h: seq<Event>, now: int)
    requires Inv(s) && Heard(start, s, h) && Step(s, EndOfBatch(now)).Some?
    ensures Heard(start, Step(s, EndOfBatch(now)).value, h + [EndOfBatch(now)])
  {
    assert (h + [EndOfBatch(now)])[..|h|] == h;
    if s.timeout { TickIsHeard(s, h, now); }
    assert Step(s, EndOfBatch(now)).value.open <= s.open;
  }

  ghost predicate Told(start: int, s: State, h: seq<Event>) { Inv(s) && Heard(start, s, h) && GoesOn(s, h) }

  /** The events of a run that could happen. */
  function Past(start: int, events: seq<Event>): seq<Event> { Made(Step, Start(start), events) }

  /** In every run the events alone determine which connections are open, when each was last
      active, whether an alarm is due and whether the server is to stop. */
  lemma RunIsTold(start: int, events: seq<Event>)
    ensures Told(start, Exec(Step, Start(start), events), Past(start, events))
  {
    forall s, h, e | Told(start, s, h) && Step(s, e).Some? ensures Told(start, Step(s, e).value, h + [e]) {
      StepKeepsInv(s, e);
      StepIsHeard(start, s, h, e);
      GoesOnNext(s, h, e);
    }
    History(Step, (s, h) => Told(start, s, h), Start(start), [], events);
    assert [] + Past(start, events) == Past(start, events);
  }

  /** An event can happen exactly if no batch has ended since a SIGTERM, its descriptor is
      open, or not yet for an accept, and its time is not before the last one. */
  lemma EventHappensExactly(start: int, events: seq<Event>, e: Event)
    ensures var h := Past(start, events);
            Step(Exec(Step, Start(start), events), e).Some? <==>
              && (forall i, j :: 0 <= i < j < |h| ==> !(h[i] == Terminate && h[j].EndOfBatch?))
              && match e
                 case Accept(fd, now) => fd !in OpenAfter(h) && now >= TimeAfter(start, h)
                 case Data(fd, now) => fd in OpenAfter(h) && now >= TimeAfter(start, h)
                 case Again(fd) => fd in OpenAfter(h)
                 case Hangup(fd) => fd in OpenAfter(h)
                 case EndOfBatch(now) => now >= TimeAfter(start, h)
                 case _ => true
  {
    RunIsTold(start, events);
  }

  /** The open connections are those the events leave open; each has exactly one timer and
      every timer an open connection, set three slots after the connection was last heard
      of; every connection accepted is open or has been closed once. */
  lemma ConnectionsAndTimersAgree(start: int, events: seq<Event>)
    ensures var s := Exec(Step, Start(start), events);
            var h := Past(start, events);
            && s.open == OpenAfter(h)
            && (forall fd :: fd in s.open <==> exists i :: 0 <= i < |s.timers| && s.timers[i].id == fd)
            && (forall i, j :: 0 <= i < j < |s.timers| ==> s.timers[i].id != s.timers[j].id)
            && (forall i :: 0 <= i < |s.timers| ==>
                  LastHeard(h, s.timers[i].id) == Some(s.timers[i].expire - 3 * TIMESLOT))
            && s.accepted == s.closed + |s.timers|
  {
    RunIsTold(start, events);
    var s := Exec(Step, Start(start), events);
    forall i | 0 <= i < |s.timers| ensures TimerOk(s, s.timers[i]) && s.timers[i].id in s.open {
      assert s.timers[i] in s.timers;
    }
  }

  /** After an alarm the end of the batch closes a connection exactly when it has not been
      heard of for three slots: never before, and no other connection is touched. */
  lemma ClosedExactlyWhenIdle(start: int, events: seq<Event>, now: int, fd: int)
    requires var h := Past(start, events);
             AlarmUp(h) && fd in OpenAfter(h) && now >= TimeAfter(start, h) && Exec(Step, Start(start), events).running
    ensures var s := Exec(Step, Start(start), events);
            && LastHeard(Past(start, events), fd).Some? && Step(s, EndOfBatch(now)).Some?
            && (fd !in Step(s, EndOfBatch(now)).value.open <==>
                now >= LastHeard(Past(start, events), fd).value + 3 * TIMESLOT)
  {
    RunIsTold(start, events);
    TickIsHeard(Exec(Step, Start(start), events), Past(start, events), now);
  }

  /** An idle connection does not outlive its deadline by more than a slot and the
      delay d of the alarm: as long as the last tick is at most TIMESLOT + d ago, no
      connection not heard of for 4 * TIMESLOT + d is open. */
  lemma IdleConnectionsEnd(start: int, events: seq<Event>, d: int, fd: int)
    requires var h := Past(start, events);
             fd in OpenAfter(h) && TimeAfter(start, h) <= TickAfter(start, h) + TIMESLOT + d
    ensures var h := Past(start, events);
            LastHeard(h, fd).Some? && TimeAfter(start, h) < LastHeard(h, fd).value + 4 * TIMESLOT + d
  {
    RunIsTold(start, events);
    var s := Exec(Step, Start(start), events);
    var i :| 0 <= i < |s.timers| && s.timers[i].id == fd;
    assert s.timers[i] in s.timers && TimerOk(s, s.timers[i]);
  }

  // ---- The descriptor that line 100 records.

  /** Lines 34-39 and 138 or 143 when users[fd].confd holds `recorded`: cb_func closes
      that descriptor, and fd's timer is deleted. */
  function CloseRecorded(s: State, fd: int, recorded: int): State
    requires IndexOf(s.timers, fd) < |s.timers|
  {
    s.(open := s.open - {recorded}, timers := Remove(s.timers, IndexOf(s.timers, fd)))
  }

  /** Line 100 records the listening descriptor, which is never a client's.  Connections
      and timers still agree after a close exactly when the recorded one is fd's own. */
  lemma RecordedDescriptorMatters(s: State, fd: int, recorded: int)
    requires Inv(s) && fd in s.open
    ensures IndexOf(s.timers, fd) < |s.timers|
    ensures var n := CloseRecorded(s, fd, recorded);
            Ids(n.timers) == n.open <==> recorded == fd
  {
    var i :| 0 <= i < |s.timers| && s.timers[i].id == fd;
    RemoveIds(s.timers, IndexOf(s.timers, fd));
  }
}
