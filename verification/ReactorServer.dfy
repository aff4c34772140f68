/** The echo reactor of unix网络编程/IO多路复用/epoll/reactor/{server.c,main.c} in place: callbacks
    that change the table of event slots, and the loop that calls them. */
module ReactorServer {
  import opened Runs
  import opened R = ReactorSpec

  /** One entry that epoll_wait fills in: the slot it points back to.  An interest has one
      of EPOLLIN and EPOLLOUT, so one of the two tests in main.c lines 45 and 53 holds. */
  datatype Ready = Ready(slot: nat, io: Io)

  class Server {
    const events: array<Slot>
    var interest: map<int, Interest>
    var open: set<int>
    var conns: seq<Conn>
    var ended: seq<Conn>
    var exited: bool

    ghost function Abs(): State
      reads this, events
    {
      State(events[..], interest, open, conns, ended, exited)
    }

    ghost predicate Sized()
      reads this, events
    {
      events.Length == |conns| == MAX_EVENTS + 1
    }

    /** Lines 174-203, with socket `listenfd`. */
    constructor (listenfd: int)
      ensures Sized() && fresh(events) && Abs() == Init(listenfd)
    {
      events := new Slot[MAX_EVENTS + 1](_ => Slot(0, In, NoCall, false, Zeros(), 0));
      interest, open := map[], {listenfd};
      conns, ended, exited := seq(MAX_EVENTS + 1, _ => Conn([], [], 0)), [], false;
      new;
      assert events[..] == seq(MAX_EVENTS + 1, _ => Slot(0, In, NoCall, false, Zeros(), 0));
      EventSet(MAX_EVENTS, listenfd, In, Accept);
      EventAdd(MAX_EVENTS);
    }

    /** Lines 27-43. */
    method EventSet(i: nat, fd: int, event: Event, cb: CallBack)
      requires i < events.Length
      modifies events
      ensures Abs() == old(Abs()).(slots := old(events[..])[i := R.EventSet(old(events[i]), fd, event, cb)])
    {
      var ev := events[i].(fd := fd, event := event, callBack := cb, registered := false);
      if ev.datalen <= 0 {
        ev := ev.(buf := Zeros(), datalen := 0);
      }
      events[i] := ev;
    }

    /** Lines 46-69. */
    method EventAdd(i: nat)
      requires i < events.Length
      modifies events, this`interest, this`exited
      ensures Abs() == R.EventAdd(old(Abs()), i)
    {
      var ev := events[i];
      var add := !ev.registered;
      if ev.fd !in open || (ev.fd in interest) == add {
        exited := true;
        return;
      }
      interest := interest[ev.fd := Interest(ev.event, i)];
      events[i] := ev.(registered := true);
    }

    /** Lines 72-76. */
    method EventDel(i: nat)
      requires i < events.Length
      modifies this`interest
      ensures Abs() == R.EventDel(old(Abs()), i)
    {
      if events[i].registered {
        interest := interest - {events[i].fd};
      }
    }

    /** Lines 91-95 and 126-130. */
    method Rearm(i: nat, event: Event, cb: CallBack)
      requires i < events.Length
      modifies events, this`interest, this`exited
      ensures Abs() == R.Rearm(old(Abs()), i, event, cb)
    {
      EventDel(i);
      EventSet(i, events[i].fd, event, cb);
      EventAdd(i);
    }

    /** Lines 79-97. */
    method SendData(i: nat, len: int)
      requires Sized() && i < events.Length && len <= |events[i].buf|
      modifies this, events
      ensures Sized() && Abs() == R.SendData(old(Abs()), i, len)
    {
      if len < 0 {
        exited := true;
        return;
      }
      var c, ev := conns[i], events[i];
      var lost := if ev.datalen > len then ev.datalen - len else 0;
      conns := conns[i := Conn(c.got, c.sent + ev.buf[..len], c.lost + lost)];
      Rearm(i, In, Recv);
    }

    /** Line 120. */
    method UpperAt(i: nat, k: nat)
      requires i < events.Length && k < |events[i].buf|
      modifies events
      ensures events[i] == old(events[i]).(buf := old(events[i]).buf[k := Up(old(events[i]).buf[k])])
      ensures forall j :: 0 <= j < events.Length && j != i ==> events[j] == old(events[j])
    {
      events[i] := events[i].(buf := events[i].buf[k := Up(events[i].buf[k])]);
    }

    /** Lines 119-120. */
    method ToUpper(i: nat, len: nat)
      requires i < events.Length && len <= |events[i].buf|
      modifies events
      ensures events[i] == old(events[i]).(buf := Partly(old(events[i]).buf, len))
      ensures forall j :: 0 <= j < events.Length && j != i ==> events[j] == old(events[j])
    {
      ghost var buf := events[i].buf;
      var k := 0;
      PartlyNone(buf);
      while k < len
        invariant k <= len && events[i] == old(events[i]).(buf := Partly(buf, k))
        invariant forall j :: 0 <= j < events.Length && j != i ==> events[j] == old(events[j])
      {
        PartlyNext(buf, k);
        UpperAt(i, k);
        k := k + 1;
      }
    }

    /** Lines 105 and 119-122: receives, shifts to upper case, ends the text. */
    method Fill(i: nat, bytes: seq<Byte>)
      requires i < events.Length && |bytes| <= |events[i].buf|
      modifies events
      ensures var ev := old(events[i]);
              events[..] == old(events[..])[i := ev.(buf := Filled(ev.buf, bytes), datalen := |bytes|)]
    {
      ghost var buf := events[i].buf;
      FilledIs(buf, bytes);
      events[i] := events[i].(buf := bytes + events[i].buf[|bytes|..]);
      ToUpper(i, |bytes|);
      if |bytes| < |events[i].buf| {
        events[i] := events[i].(buf := events[i].buf[|bytes| := 0]);
      }
      events[i] := events[i].(datalen := |bytes|);
    }

    /** Lines 100-132. */
    method RecvData(i: nat, io: Io)
      requires Sized() && i < events.Length && (io.Received? ==> |io.bytes| <= |events[i].buf|)
      modifies this, events
      ensures Sized() && Abs() == R.RecvData(old(Abs()), i, io)
    {
      if io.PeerClosed? {
        open := open - {events[i].fd};
        interest := interest - {events[i].fd};
        ended := ended + [conns[i]];
        events[i] := events[i].(registered := false);
      } else if !io.Received? {
        exited := true;
      } else {
        conns := conns[i := conns[i].(got := conns[i].got + io.bytes)];
        Fill(i, io.bytes);
        Rearm(i, Out, Send);
      }
    }

    /** Lines 156-160. */
    method Free() returns (i: nat)
      requires events.Length == MAX_EVENTS + 1
      ensures i == FreeSlot(events[..], 0)
    {
      i := 0;
      while i < MAX_EVENTS
        invariant i <= MAX_EVENTS && FreeSlot(events[..], i) == FreeSlot(events[..], 0)
      {
        if !events[i].registered {
          break;
        }
        i := i + 1;
      }
    }

    /** Lines 135-172. */
    method AcceptConnect(confd: int)
      requires Sized()
      modifies this, events
      ensures Sized() && Abs() == R.AcceptConnect(old(Abs()), confd)
    {
      var i := Free();
      if confd < 0 || i == MAX_EVENTS {
        exited := true;
        return;
      }
      open := open + {confd};
      conns := conns[i := Conn([], [], 0)];
      EventSet(i, confd, InEdge, Recv);
      EventAdd(i);
    }

    /** main.c lines 49 and 57. */
    method Call(i: nat, io: Io)
      requires Sized() && i < events.Length && Answers(open, events[i], io)
      modifies this, events
      ensures Sized() && Abs() == R.Call(old(Abs()), i, io)
    {
      match events[i].callBack
      case Accept => AcceptConnect(io.confd);
      case Recv => RecvData(i, io);
      case Send => SendData(i, io.len);
    }

    /** main.c lines 43-58 for one report, whose slot was taken when epoll_wait returned. */
    method Turn(ready: Ready, ghost fd: int)
      requires Sized() && Inv(Abs()) && !exited && fd in interest && interest[fd].slot == ready.slot
      modifies this, events
      ensures Sized() && Inv(Abs()) && Abs() == Next(old(Abs()), Report(fd, ready.io))
      ensures !exited ==> forall g :: g in old(interest) && g != fd ==> g in interest && interest[g] == old(interest[g])
    {
      ghost var s, r := Abs(), Report(fd, ready.io);
      if Answers(open, events[ready.slot], ready.io) {
        Call(ready.slot, ready.io);
        StepKeepsInv(s, r);
        if !exited {
          forall g | g in s.interest && g != fd ensures g in interest && interest[g] == s.interest[g] {
            OthersStay(s, r, g);
          }
        }
      }
    }

    /** main.c lines 42-60: calls back the slots of one batch, which name the descriptors
        `fds`, in order.  Though the slots were taken when epoll_wait returned, each is
        still the right one when its turn comes. */
    method Dispatch(ready: seq<Ready>, ghost fds: seq<int>)
      requires Sized() && Inv(Abs()) && !exited && |ready| == |fds|
      requires forall k :: 0 <= k < |fds| ==> fds[k] in interest && interest[fds[k]].slot == ready[k].slot
      requires forall j, k :: 0 <= j < k < |fds| ==> fds[j] != fds[k]
      modifies this, events
      ensures Sized() && Inv(Abs())
      ensures Abs() == Exec(Step, old(Abs()), Reports(fds, ready))
    {
      var k := 0;
      assert fds[k..] == fds && ready[k..] == ready;
      while k < |ready| && !exited
        invariant k <= |ready| && Sized() && Inv(Abs())
        invariant !exited ==>
                    forall j :: k <= j < |fds| ==> fds[j] in interest && interest[fds[j]].slot == ready[j].slot
        invariant Exec(Step, Abs(), Reports(fds[k..], ready[k..])) == Exec(Step, old(Abs()), Reports(fds, ready))
        decreases |ready| - k
      {
        NextReport(Abs(), fds, ready, k);
        Turn(ready[k], fds[k]);
        k := k + 1;
      }
      NothingAfterExit(Abs(), Reports(fds[k..], ready[k..]));
    }
  }

  /** A buffer with its first k bytes in upper case. */
  ghost function Partly(buf: seq<Byte>, k: nat): (r: seq<Byte>)
    requires k <= |buf|
    ensures |r| == |buf|
  {
    Upper(buf[..k]) + buf[k..]
  }

  lemma PartlyNone(buf: seq<Byte>)
    ensures Partly(buf, 0) == buf
  {
  }

  lemma PartlyNext(buf: seq<Byte>, k: nat)
    requires k < |buf|
    ensures Partly(buf, k)[k] == buf[k] && Partly(buf, k)[k := Up(buf[k])] == Partly(buf, k + 1)
  {
  }

  lemma FilledIs(buf: seq<Byte>, bytes: seq<Byte>)
    requires |bytes| <= |buf|
    ensures var p := Partly(bytes + buf[|bytes|..], |bytes|);
            Filled(buf, bytes) == if |bytes| < |buf| then p[|bytes| := 0] else p
  {
    var b := bytes + buf[|bytes|..];
    assert b[..|bytes|] == bytes && b[|bytes|..] == buf[|bytes|..];
  }

  /** The state after a report; the kernel makes no report that Step does not allow. */
  ghost function Next(s: State, r: Report): State {
    match Step(s, r) case None => s case Some(n) => n
  }

  ghost function Reports(fds: seq<int>, ready: seq<Ready>): seq<Report>
    requires |fds| == |ready|
  {
    seq(|fds|, k requires 0 <= k < |fds| => Report(fds[k], ready[k].io))
  }

  lemma NextReport(s: State, fds: seq<int>, ready: seq<Ready>, k: nat)
    requires k < |fds| == |ready|
    ensures Exec(Step, s, Reports(fds[k..], ready[k..])) ==
            Exec(Step, Next(s, Report(fds[k], ready[k].io)), Reports(fds[k + 1..], ready[k + 1..]))
  {
    assert Reports(fds[k..], ready[k..])[1..] == Reports(fds[k + 1..], ready[k + 1..]);
  }

  lemma {:induction false} NothingAfterExit(s: State, reports: seq<Report>)
    requires s.exited || reports == []
    ensures Exec(Step, s, reports) == s
    decreases |reports|
  {
    if reports != [] {
      NothingAfterExit(s, reports[1..]);
    }
  }
}
