/** The echo reactor of unix网络编程/IO多路复用/epoll/reactor/{server.c,server.h,main.c}: a table
    of event slots, the kernel's interest list, and callbacks that each register the next. */
module ReactorSpec {
  import opened Runs

  type Byte = x: int | 0 <= x < 256

  /** Lines 20-21; BUFSIZE is BUF_SIZE here. */
  const MAX_EVENTS: nat := 1024
  const BUF_SIZE: nat := 4096

  datatype CallBack = NoCall | Accept | Recv | Send

  /** EPOLLIN, EPOLLIN | EPOLLET, EPOLLOUT. */
  datatype Event = In | InEdge | Out

  /** struct my_event; `status` 1 is `registered`. */
  datatype Slot = Slot(fd: int, event: Event, callBack: CallBack, registered: bool, buf: seq<Byte>, datalen: int)

  /** What a connection has received, what it was sent, and how many bytes short sends left out. */
  datatype Conn = Conn(got: seq<Byte>, sent: seq<Byte>, lost: nat)

  /** What the kernel is to report for a descriptor, and the slot it gives back. */
  datatype Interest = Interest(event: Event, slot: nat)

  /** The table of line 24, the kernel's interest list and open descriptors, and a history:
      one Conn beside each slot, and those of the connections that have ended. */
  datatype State = State(
    slots: seq<Slot>, interest: map<int, Interest>, open: set<int>,
    conns: seq<Conn>, ended: seq<Conn>, exited: bool)

  /** What accept, recv and send give to the callback that asks. */
  datatype Io = Accepted(confd: int) | Received(bytes: seq<Byte>) | PeerClosed | RecvFailed | Sent(len: int)

  /** The kernel reports a descriptor as ready, and answers the callback. */
  datatype Report = Report(fd: int, io: Io)

  /** toupper in the C locale. */
  function Up(b: Byte): Byte { if 97 <= b <= 122 then b - 32 else b }

  function Upper(s: seq<Byte>): (r: seq<Byte>)
    ensures |r| == |s| && forall i :: 0 <= i < |s| ==> r[i] == Up(s[i])
  {
    seq(|s|, i requires 0 <= i < |s| => Up(s[i]))
  }

  function Zeros(): seq<Byte> { seq(BUF_SIZE, _ => 0) }

  // ---- The functions of server.c.

  /** Lines 27-43. */
  function EventSet(ev: Slot, fd: int, event: Event, cb: CallBack): Slot {
    Slot(fd, event, cb, false, if ev.datalen <= 0 then Zeros() else ev.buf, if ev.datalen <= 0 then 0 else ev.datalen)
  }

  /** Lines 46-69: EPOLL_CTL_ADD needs an open descriptor that is not in the list yet,
      EPOLL_CTL_MOD one that is. */
  function EventAdd(s: State, i: nat): State
    requires i < |s.slots|
  {
    var ev := s.slots[i];
    if ev.fd !in s.open || ((ev.fd in s.interest) != ev.registered) then s.(exited := true)
    else s.(interest := s.interest[ev.fd := Interest(ev.event, i)], slots := s.slots[i := ev.(registered := true)])
  }

  /** Lines 72-76. */
  function EventDel(s: State, i: nat): State
    requires i < |s.slots|
  {
    if s.slots[i].registered then s.(interest := s.interest - {s.slots[i].fd}) else s
  }

  /** event_del, event_set, event_add on a slot, as lines 91-95 and 126-130 do. */
  function Rearm(s: State, i: nat, event: Event, cb: CallBack): State
    requires i < |s.slots|
  {
    var t := EventDel(s, i);
    EventAdd(t.(slots := t.slots[i := EventSet(t.slots[i], t.slots[i].fd, event, cb)]), i)
  }

  /** Lines 79-97, when send took `len` bytes. */
  function SendData(s: State, i: nat, len: int): State
    requires i < |s.slots| == |s.conns| && len <= |s.slots[i].buf|
  {
    if len < 0 then s.(exited := true) else
    var c, ev := s.conns[i], s.slots[i];
    var lost := if ev.datalen > len then ev.datalen - len else 0;
    Rearm(s.(conns := s.conns[i := Conn(c.got, c.sent + ev.buf[..len], c.lost + lost)]), i, In, Recv)
  }

  /** Lines 105 and 119-122: the buffer with the received bytes in upper case in front.
      Past a full buffer line 121 writes into `datalen`, which line 122 sets. */
  function Filled(buf: seq<Byte>, bytes: seq<Byte>): seq<Byte>
    requires |bytes| <= |buf|
  {
    Upper(bytes) + (if |bytes| < |buf| then [0] + buf[|bytes| + 1..] else [])
  }

  /** Lines 100-132, where a closed peer ends the connection; see RecvDataAsWritten. */
  function RecvData(s: State, i: nat, io: Io): State
    requires i < |s.slots| == |s.conns| && (io.Received? ==> |io.bytes| <= |s.slots[i].buf|)
  {
    var c, ev := s.conns[i], s.slots[i];
    if io.Received? then
      var filled := ev.(buf := Filled(ev.buf, io.bytes), datalen := |io.bytes|);
      Rearm(s.(slots := s.slots[i := filled], conns := s.conns[i := c.(got := c.got + io.bytes)]), i, Out, Send)
    else if io.PeerClosed? then
      s.(open := s.open - {ev.fd}, interest := s.interest - {ev.fd},
         slots := s.slots[i := ev.(registered := false)], ended := s.ended + [c])
    else s.(exited := true)
  }

  /** Lines 157-160: the first slot that is not registered. */
  function FreeSlot(slots: seq<Slot>, from: nat): (r: nat)
    requires from <= MAX_EVENTS < |slots|
    ensures from <= r <= MAX_EVENTS && (r < MAX_EVENTS ==> !slots[r].registered)
    ensures forall j :: from <= j < r ==> slots[j].registered
    decreases MAX_EVENTS - from
  {
    if from == MAX_EVENTS || !slots[from].registered then from else FreeSlot(slots, from + 1)
  }

  /** Lines 135-172.  A descriptor of -1 fails in line 152. */
  function AcceptConnect(s: State, confd: int): State
    requires |s.slots| == |s.conns| == MAX_EVENTS + 1
  {
    var j := FreeSlot(s.slots, 0);
    if confd < 0 || j == MAX_EVENTS then s.(exited := true)
    else EventAdd(s.(open := s.open + {confd}, slots := s.slots[j := EventSet(s.slots[j], confd, InEdge, Recv)],
                     conns := s.conns[j := Conn([], [], 0)]), j)
  }

  /** Lines 174-203 with socket `listenfd`, on the zeroed table. */
  function Init(listenfd: int): State {
    var slots := seq(MAX_EVENTS + 1, _ => Slot(0, In, NoCall, false, Zeros(), 0));
    EventAdd(State(slots[MAX_EVENTS := EventSet(slots[MAX_EVENTS], listenfd, In, Accept)], map[], {listenfd},
                   seq(MAX_EVENTS + 1, _ => Conn([], [], 0)), [], false), MAX_EVENTS)
  }

  /** What the kernel may answer a callback: a new descriptor is not open yet, recv gives
      one byte to a buffer full, send takes at most what it is given. */
  predicate Answers(open: set<int>, ev: Slot, io: Io) {
    match ev.callBack
    case Accept => io.Accepted? && io.confd !in open
    case Recv => io.PeerClosed? || io.RecvFailed? || (io.Received? && 0 < |io.bytes| <= |ev.buf|)
    case Send => io.Sent? && io.len <= ev.datalen <= |ev.buf|
    case NoCall => false
  }

  function Call(s: State, i: nat, io: Io): State
    requires i < |s.slots| == |s.conns| == MAX_EVENTS + 1 && Answers(s.open, s.slots[i], io)
  {
    match s.slots[i].callBack
    case Accept => AcceptConnect(s, io.confd)
    case Recv => RecvData(s, i, io)
    case Send => SendData(s, i, io.len)
  }

  /** main.c lines 42-58 for one report. */
  function Step(s: State, r: Report): Option<State> {
    if s.exited || r.fd !in s.interest then None else
    var i := s.interest[r.fd].slot;
    if !(i < |s.slots| == |s.conns| == MAX_EVENTS + 1) || !Answers(s.open, s.slots[i], r.io) then None
    else Some(Call(s, i, r.io))
  }

  // ---- What holds between callbacks.

  /** What is received and not yet sent. */
  function Pending(ev: Slot): seq<Byte> {
    if ev.callBack == Send && 0 <= ev.datalen <= |ev.buf| then ev.buf[..ev.datalen] else []
  }

  /** A slot waits for what its callback does: the listener accepts, a connection reads or writes. */
  predicate Matches(ev: Slot, i: nat) {
    if i == MAX_EVENTS then ev.event == In && ev.callBack == Accept
    else (ev.event != Out && ev.callBack == Recv) || (ev.event == Out && ev.callBack == Send)
  }

  predicate Answered(c: Conn, pending: seq<Byte>) {
    && |c.got| == |c.sent| + c.lost + |pending|
    && (c.lost == 0 ==> Upper(c.got) == c.sent + pending)
  }

  /** Interest list and table are two views of the same thing, ... */
  ghost predicate Registered(slots: seq<Slot>, interest: map<int, Interest>, open: set<int>) {
    && |slots| == MAX_EVENTS + 1 && slots[MAX_EVENTS].registered
    && open == interest.Keys
    && (forall i :: 0 <= i < |slots| && slots[i].registered ==>
          slots[i].fd in interest && interest[slots[i].fd] == Interest(slots[i].event, i))
    && (forall fd :: fd in interest ==>
          interest[fd].slot < |slots| && slots[interest[fd].slot].registered && slots[interest[fd].slot].fd == fd)
  }

  /** ... and every slot fits its callback and its buffer, ... */
  ghost predicate Fits(slots: seq<Slot>) {
    && (forall i: nat :: i < |slots| && slots[i].registered ==> Matches(slots[i], i))
    && (forall i :: 0 <= i < |slots| ==> |slots[i].buf| == BUF_SIZE && 0 <= slots[i].datalen <= BUF_SIZE)
  }

  /** ... and every connection has been sent what it is due. */
  ghost predicate Echoes(slots: seq<Slot>, conns: seq<Conn>, ended: seq<Conn>) {
    && |slots| == |conns| == MAX_EVENTS + 1
    && (forall i :: 0 <= i < MAX_EVENTS && slots[i].registered ==> Answered(conns[i], Pending(slots[i])))
    && (forall k :: 0 <= k < |ended| ==> Answered(ended[k], []))
  }

  ghost predicate Inv(s: State) {
    !s.exited ==> Registered(s.slots, s.interest, s.open) && Fits(s.slots) && Echoes(s.slots, s.conns, s.ended)
  }

  /** event_set and event_add on slot i for a descriptor that is in no other slot. */
  lemma RegisterKeeps(slots: seq<Slot>, interest: map<int, Interest>, open: set<int>, i: nat, ev: Slot, n: Slot)
    requires Registered(slots, interest, open) && i <= MAX_EVENTS && n.registered
    requires (i < MAX_EVENTS && !slots[i].registered && n.fd !in open) || (slots[i].registered && n.fd == slots[i].fd)
    ensures Registered(slots[i := n], interest[n.fd := Interest(n.event, i)], open + {n.fd})
  {
  }

  lemma CloseKeeps(slots: seq<Slot>, interest: map<int, Interest>, open: set<int>, i: nat, n: Slot)
    requires Registered(slots, interest, open) && i < MAX_EVENTS && slots[i].registered && !n.registered
    ensures Registered(slots[i := n], interest - {slots[i].fd}, open - {slots[i].fd})
  {
  }

  /** Arming a registered slot anew takes the ADD branch and succeeds. */
  lemma RearmSucceeds(s: State, i: nat, event: Event, cb: CallBack)
    requires i < |s.slots| && s.slots[i].registered && s.slots[i].fd in s.open
    ensures var n := EventSet(s.slots[i], s.slots[i].fd, event, cb).(registered := true);
            Rearm(s, i, event, cb) == s.(interest := s.interest[n.fd := Interest(event, i)], slots := s.slots[i := n])
  {
    var fd := s.slots[i].fd;
    assert (s.interest - {fd})[fd := Interest(event, i)] == s.interest[fd := Interest(event, i)];
  }

  lemma FitsKeeps(slots: seq<Slot>, i: nat, n: Slot)
    requires Fits(slots) && i < |slots| && |n.buf| == BUF_SIZE && 0 <= n.datalen <= BUF_SIZE
             && (n.registered ==> Matches(n, i))
    ensures Fits(slots[i := n])
  {
  }

  lemma EchoesKeeps(slots: seq<Slot>, conns: seq<Conn>, ended: seq<Conn>, i: nat, n: Slot, c: Conn)
    requires Echoes(slots, conns, ended) && i < MAX_EVENTS && (n.registered ==> Answered(c, Pending(n)))
    ensures Echoes(slots[i := n], conns[i := c], ended)
  {
  }

  /** A send that takes everything sends what was pending; one that takes less loses the rest. */
  lemma SendAnswers(c: Conn, ev: Slot, len: nat)
    requires Answered(c, Pending(ev)) && ev.callBack == Send && len <= ev.datalen <= |ev.buf|
    ensures Answered(Conn(c.got, c.sent + ev.buf[..len], c.lost + ev.datalen - len), [])
  {
    assert c.sent + ev.buf[..ev.datalen] + [] == c.sent + ev.buf[..ev.datalen];
  }

  lemma UpperConcat(a: seq<Byte>, b: seq<Byte>)
    ensures Upper(a + b) == Upper(a) + Upper(b)
  {
  }

  lemma RecvAnswers(c: Conn, bytes: seq<Byte>, buf: seq<Byte>)
    requires Answered(c, []) && |bytes| <= |buf|
    ensures Filled(buf, bytes)[..|bytes|] == Upper(bytes) && |Filled(buf, bytes)| == |buf|
    ensures Answered(c.(got := c.got + bytes), Upper(bytes))
  {
    UpperConcat(c.got, bytes);
    assert c.sent + [] == c.sent;
  }

  lemma SendKeepsInv(s: State, i: nat, len: int)
    requires Inv(s) && !s.exited && i < MAX_EVENTS && s.slots[i].registered && s.slots[i].callBack == Send
    requires len <= s.slots[i].datalen
    ensures Inv(SendData(s, i, len)) && (SendData(s, i, len).exited <==> len < 0)
  {
    if len >= 0 {
      var c, ev := s.conns[i], s.slots[i];
      var d := Conn(c.got, c.sent + ev.buf[..len], c.lost + ev.datalen - len);
      var n := EventSet(ev, ev.fd, In, Recv).(registered := true);
      RearmSucceeds(s.(conns := s.conns[i := d]), i, In, Recv);
      RegisterKeeps(s.slots, s.interest, s.open, i, ev, n);
      FitsKeeps(s.slots, i, n);
      SendAnswers(c, ev, len);
      EchoesKeeps(s.slots, s.conns, s.ended, i, n, d);
      assert s.open + {n.fd} == s.open;
    }
  }

  lemma ReceivedKeepsInv(s: State, i: nat, bytes: seq<Byte>)
    requires Inv(s) && !s.exited && i < MAX_EVENTS && s.slots[i].registered && s.slots[i].callBack == Recv
    requires 0 < |bytes| <= |s.slots[i].buf|
    ensures Inv(RecvData(s, i, Received(bytes))) && !RecvData(s, i, Received(bytes)).exited
  {
    var c, ev := s.conns[i], s.slots[i];
    RecvAnswers(c, bytes, ev.buf);
    var d, e := c.(got := c.got + bytes), ev.(buf := Filled(ev.buf, bytes), datalen := |bytes|);
    var n := EventSet(e, e.fd, Out, Send).(registered := true);
    RearmSucceeds(s.(slots := s.slots[i := e], conns := s.conns[i := d]), i, Out, Send);
    assert s.slots[i := e][i := n] == s.slots[i := n] && s.open + {n.fd} == s.open;
    RegisterKeeps(s.slots, s.interest, s.open, i, ev, n);
    FitsKeeps(s.slots, i, n);
    EchoesKeeps(s.slots, s.conns, s.ended, i, n, d);
  }

  lemma RecvKeepsInv(s: State, i: nat, io: Io)
    requires Inv(s) && !s.exited && i < MAX_EVENTS && s.slots[i].registered && s.slots[i].callBack == Recv
    requires io.Received? ==> 0 < |io.bytes| <= |s.slots[i].buf|
    ensures Inv(RecvData(s, i, io)) && (RecvData(s, i, io).exited <==> !io.Received? && !io.PeerClosed?)
  {
    if io.Received? {
      ReceivedKeepsInv(s, i, io.bytes);
    } else if io.PeerClosed? {
      var n := s.slots[i].(registered := false);
      CloseKeeps(s.slots, s.interest, s.open, i, n);
      FitsKeeps(s.slots, i, n);
      EchoesKeeps(s.slots, s.conns, s.ended, i, n, s.conns[i]);
      assert s.conns[i := s.conns[i]] == s.conns;
    }
  }

  /** There is a slot for another connection. */
  predicate HasRoom(slots: seq<Slot>)
    requires |slots| > MAX_EVENTS
  {
    exists j :: 0 <= j < MAX_EVENTS && !slots[j].registered
  }

  lemma AcceptKeepsInv(s: State, confd: int)
    requires Inv(s) && !s.exited && confd !in s.open
    ensures Inv(AcceptConnect(s, confd))
    ensures AcceptConnect(s, confd).exited <==> confd < 0 || !HasRoom(s.slots)
  {
    if confd >= 0 && HasRoom(s.slots) { RoomyAcceptKeepsInv(s, confd); } else { AcceptFails(s, confd); }
  }

  lemma AcceptFails(s: State, confd: int)
    requires |s.slots| == |s.conns| == MAX_EVENTS + 1 && (confd < 0 || !HasRoom(s.slots))
    ensures AcceptConnect(s, confd) == s.(exited := true)
  {
  }

  lemma RoomyAcceptKeepsInv(s: State, confd: int)
    requires Inv(s) && !s.exited && confd !in s.open && confd >= 0 && HasRoom(s.slots)
    ensures Inv(AcceptConnect(s, confd)) && !AcceptConnect(s, confd).exited
  {
    AcceptIs(s, confd);
    JoinKeepsInv(s, confd, FreeSlot(s.slots, 0));
  }

  lemma JoinKeepsInv(s: State, confd: int, j: nat)
    requires Inv(s) && !s.exited && confd !in s.open && j < MAX_EVENTS && !s.slots[j].registered
    ensures Inv(s.(open := s.open + {confd}, interest := s.interest[confd := Interest(InEdge, j)],
                   slots := s.slots[j := NewSlot(s.slots[j], confd)], conns := s.conns[j := Conn([], [], 0)]))
  {
    var n := NewSlot(s.slots[j], confd);
    RegisterKeeps(s.slots, s.interest, s.open, j, s.slots[j], n);
    FitsKeeps(s.slots, j, n);
    EchoesKeeps(s.slots, s.conns, s.ended, j, n, Conn([], [], 0));
  }

  /** A slot once it is a new connection's. */
  function NewSlot(ev: Slot, confd: int): Slot { EventSet(ev, confd, InEdge, Recv).(registered := true) }

  lemma AcceptIs(s: State, confd: int)
    requires |s.slots| == |s.conns| == MAX_EVENTS + 1 && FreeSlot(s.slots, 0) < MAX_EVENTS
    requires confd >= 0 && confd !in s.interest
    ensures var j := FreeSlot(s.slots, 0);
            AcceptConnect(s, confd) ==
            s.(open := s.open + {confd}, interest := s.interest[confd := Interest(InEdge, j)],
               slots := s.slots[j := NewSlot(s.slots[j], confd)], conns := s.conns[j := Conn([], [], 0)])
  {
    var j := FreeSlot(s.slots, 0);
    var m := EventSet(s.slots[j], confd, InEdge, Recv);
    AddSucceeds(s.(open := s.open + {confd}, slots := s.slots[j := m], conns := s.conns[j := Conn([], [], 0)]), j);
    assert s.slots[j := m][j := NewSlot(s.slots[j], confd)] == s.slots[j := NewSlot(s.slots[j], confd)];
  }

  lemma AddSucceeds(s: State, j: nat)
    requires j < |s.slots| && !s.slots[j].registered && s.slots[j].fd in s.open && s.slots[j].fd !in s.interest
    ensures var n := s.slots[j].(registered := true);
            EventAdd(s, j) == s.(interest := s.interest[n.fd := Interest(n.event, j)], slots := s.slots[j := n])
  {
  }

  lemma CallKeepsInv(s: State, i: nat, io: Io)
    requires Inv(s) && !s.exited && i < |s.slots| && s.slots[i].registered && Answers(s.open, s.slots[i], io)
    ensures Inv(Call(s, i, io))
    ensures Call(s, i, io).exited <==> Fails(s, i, io)
  {
    match s.slots[i].callBack
    case Accept => AcceptKeepsInv(s, io.confd);
    case Recv => RecvKeepsInv(s, i, io);
    case Send => SendKeepsInv(s, i, io.len);
  }

  /** The server stops only where accept, recv or send fails or the table is full: never
      because epoll_ctl does. */
  predicate Fails(s: State, i: nat, io: Io)
    requires i < |s.slots| == MAX_EVENTS + 1
  {
    match s.slots[i].callBack
    case Accept => io.Accepted? && (io.confd < 0 || !HasRoom(s.slots))
    case Recv => io.RecvFailed?
    case Send => io.Sent? && io.len < 0
    case NoCall => false
  }

  lemma InitInv(listenfd: int)
    ensures Inv(Init(listenfd)) && !Init(listenfd).exited
  {
  }

  lemma StepKeepsInv(s: State, r: Report)
    requires Inv(s) && Step(s, r).Some?
    ensures Inv(Step(s, r).value)
    ensures Step(s, r).value.exited <==> Fails(s, s.interest[r.fd].slot, r.io)
  {
    CallKeepsInv(s, s.interest[r.fd].slot, r.io);
  }

  lemma RunKeepsInv(listenfd: int, reports: seq<Report>)
    ensures Inv(Exec(Step, Init(listenfd), reports))
  {
    InitInv(listenfd);
    forall s, r | Inv(s) && Step(s, r).Some? ensures Inv(Step(s, r).value) { StepKeepsInv(s, r); }
    Invariant(Step, s => Inv(s), Init(listenfd), reports);
  }

  /** Between callbacks the kernel's interest in an open descriptor is that of the one
      registered slot that has it, and it fits the slot's callback; the listener stays
      where it is, and its slot is never given to a connection. */
  lemma RegistrationAgrees(listenfd: int, reports: seq<Report>)
    ensures var s := Exec(Step, Init(listenfd), reports);
            !s.exited ==>
            && s.open == s.interest.Keys && |s.slots| == MAX_EVENTS + 1
            && s.slots[MAX_EVENTS].registered && s.slots[MAX_EVENTS].callBack == Accept
            && (forall fd :: fd in s.interest ==>
                  var i := s.interest[fd].slot;
                  i < |s.slots| && s.slots[i].registered && s.slots[i].fd == fd
                  && s.slots[i].event == s.interest[fd].event)
            && (forall i: nat :: i < |s.slots| && s.slots[i].registered ==>
                  s.slots[i].fd in s.interest && Matches(s.slots[i], i))
            && (forall i, j :: 0 <= i < j < |s.slots| && s.slots[i].registered && s.slots[j].registered ==>
                  s.slots[i].fd != s.slots[j].fd)
  {
    RunKeepsInv(listenfd, reports);
  }

  /** In every run a new connection is registered, in a slot of its own and waiting for
      its client, exactly when there is room; the other slots stay as they are. */
  lemma AcceptIsRegistered(listenfd: int, reports: seq<Report>, confd: nat)
    ensures var s := Exec(Step, Init(listenfd), reports);
            !s.exited && confd !in s.open ==>
            && |s.slots| == MAX_EVENTS + 1
            && var o := Step(s, Report(s.slots[MAX_EVENTS].fd, Accepted(confd)));
            && o.Some?
            && (!o.value.exited <==> HasRoom(s.slots))
            && (HasRoom(s.slots) ==> Joins(s, o.value, confd))
  {
    RunKeepsInv(listenfd, reports);
    var s := Exec(Step, Init(listenfd), reports);
    if !s.exited && confd !in s.open {
      AcceptKeepsInv(s, confd);
      if HasRoom(s.slots) { AcceptJoins(s, confd); }
    }
  }

  /** confd has got a slot that was free, and nothing else has changed. */
  ghost predicate Joins(s: State, n: State, confd: int) {
    && confd in n.interest && n.open == s.open + {confd}
    && var j := n.interest[confd].slot;
    && j < MAX_EVENTS < |s.slots| == |n.slots| && !s.slots[j].registered && n.slots[j].registered
    && n.slots[j].fd == confd && n.slots[j].callBack == Recv && n.slots[j].event == n.interest[confd].event == InEdge
    && (forall i :: 0 <= i < |s.slots| && i != j ==> n.slots[i] == s.slots[i])
    && (forall fd :: fd in s.interest ==> fd in n.interest && n.interest[fd] == s.interest[fd])
  }

  lemma AcceptJoins(s: State, confd: int)
    requires Inv(s) && !s.exited && confd >= 0 && confd !in s.open && HasRoom(s.slots)
    ensures Joins(s, AcceptConnect(s, confd), confd)
  {
    var j := FreeSlot(s.slots, 0);
    AcceptIs(s, confd);
    NewSlotJoins(s, confd, j, s.conns[j := Conn([], [], 0)]);
  }

  lemma NewSlotJoins(s: State, confd: int, j: nat, conns: seq<Conn>)
    requires j < MAX_EVENTS < |s.slots| && !s.slots[j].registered && confd !in s.interest
    ensures Joins(s, s.(open := s.open + {confd}, interest := s.interest[confd := Interest(InEdge, j)],
                        slots := s.slots[j := NewSlot(s.slots[j], confd)], conns := conns), confd)
  {
  }

  /** What a connection has been sent, with what is pending, is the upper case of all it
      has sent us, exactly when no send on it fell short. */
  lemma EchoIsExact(listenfd: int, reports: seq<Report>, i: nat)
    requires i < MAX_EVENTS
    ensures var s := Exec(Step, Init(listenfd), reports);
            !s.exited ==> |s.slots| == |s.conns| == MAX_EVENTS + 1 && (s.slots[i].registered ==>
            var c := s.conns[i];
            c.sent + Pending(s.slots[i]) == Upper(c.got) <==> c.lost == 0)
  {
    RunKeepsInv(listenfd, reports);
  }

  /** A connection that the client has closed has been answered in full, likewise. */
  lemma EndedAreAnswered(listenfd: int, reports: seq<Report>)
    ensures var s := Exec(Step, Init(listenfd), reports);
            !s.exited ==>
              forall k :: 0 <= k < |s.ended| ==>
                (s.ended[k].sent == Upper(s.ended[k].got) <==> s.ended[k].lost == 0)
  {
    RunKeepsInv(listenfd, reports);
    var s := Exec(Step, Init(listenfd), reports);
    if !s.exited {
      forall k | 0 <= k < |s.ended| ensures s.ended[k].sent == Upper(s.ended[k].got) <==> s.ended[k].lost == 0 {
        assert Answered(s.ended[k], []) && s.ended[k].sent + [] == s.ended[k].sent;
      }
    }
  }

  /** Lines 100-132 as written, which go on after closing: close takes the descriptor out
      of the interest list, and event_add then registers a closed one. */
  function RecvDataAsWritten(s: State, i: nat, io: Io): State
    requires i < |s.slots| == |s.conns| && |s.slots[i].buf| > 0 && (io.Received? ==> |io.bytes| <= |s.slots[i].buf|)
  {
    if io.PeerClosed? then
      var fd, ev := s.slots[i].fd, s.slots[i];
      var filled := ev.(buf := Filled(ev.buf, []), datalen := 0);
      Rearm(s.(open := s.open - {fd}, interest := s.interest - {fd}, slots := s.slots[i := filled]), i, Out, Send)
    else RecvData(s, i, io)
  }

  /** As written the server also stops when a client closes: it does what is meant exactly
      as long as none does. */
  lemma AsWrittenStopsExactly(s: State, i: nat, io: Io)
    requires Inv(s) && !s.exited && i < MAX_EVENTS && s.slots[i].registered && s.slots[i].callBack == Recv
    requires Answers(s.open, s.slots[i], io)
    ensures RecvDataAsWritten(s, i, io).exited <==> io.RecvFailed? || io.PeerClosed?
    ensures RecvDataAsWritten(s, i, io) == RecvData(s, i, io) <==> !io.PeerClosed?
  {
    RecvKeepsInv(s, i, io);
  }

  // ---- The rest of a batch from one epoll_wait.

  /** Nothing changes for descriptor fd and its slot. */
  ghost predicate Spares(s: State, n: State, fd: int)
    requires fd in s.interest && s.interest[fd].slot < |s.slots|
  {
    && fd in n.interest && n.interest[fd] == s.interest[fd]
    && |n.slots| == |s.slots| && n.slots[s.interest[fd].slot] == s.slots[s.interest[fd].slot]
  }

  /** A callback changes the interest in no descriptor but its own and a new one, so the
      slots that the rest of the batch points to stay right. */
  lemma OthersStay(s: State, r: Report, fd: int)
    requires Inv(s) && Step(s, r).Some? && fd in s.interest && fd != r.fd && !Step(s, r).value.exited
    ensures s.interest[fd].slot < |s.slots| && Spares(s, Step(s, r).value, fd)
  {
    var i := s.interest[r.fd].slot;
    assert s.slots[i].registered && s.slots[i].fd == r.fd && s.interest[fd].slot != i;
    match s.slots[i].callBack
    case Accept => AcceptSpares(s, r.io.confd, fd);
    case Recv => RecvSpares(s, i, r.io, fd);
    case Send => SendSpares(s, i, r.io.len, fd);
  }

  lemma AcceptSpares(s: State, confd: int, fd: int)
    requires Inv(s) && !s.exited && confd !in s.open && fd in s.interest && !AcceptConnect(s, confd).exited
    ensures s.interest[fd].slot < |s.slots| && Spares(s, AcceptConnect(s, confd), fd)
  {
    AcceptIs(s, confd);
  }

  lemma RecvSpares(s: State, i: nat, io: Io, fd: int)
    requires Inv(s) && !s.exited && i < MAX_EVENTS && s.slots[i].registered
    requires fd in s.interest && fd != s.slots[i].fd && s.interest[fd].slot != i
    requires io.PeerClosed? || (io.Received? && |io.bytes| <= |s.slots[i].buf|)
    ensures s.interest[fd].slot < |s.slots| && Spares(s, RecvData(s, i, io), fd)
  {
    if io.Received? {
      var e := s.slots[i].(buf := Filled(s.slots[i].buf, io.bytes), datalen := |io.bytes|);
      var c := s.conns[i].(got := s.conns[i].got + io.bytes);
      RearmSucceeds(s.(slots := s.slots[i := e], conns := s.conns[i := c]), i, Out, Send);
    }
  }

  lemma SendSpares(s: State, i: nat, len: nat, fd: int)
    requires Inv(s) && !s.exited && i < MAX_EVENTS && s.slots[i].registered && len <= s.slots[i].datalen
    requires fd in s.interest && fd != s.slots[i].fd && s.interest[fd].slot != i
    ensures s.interest[fd].slot < |s.slots| && Spares(s, SendData(s, i, len), fd)
  {
    var c, ev := s.conns[i], s.slots[i];
    var d := Conn(c.got, c.sent + ev.buf[..len], c.lost + ev.datalen - len);
    RearmSucceeds(s.(conns := s.conns[i := d]), i, In, Recv);
  }
}
