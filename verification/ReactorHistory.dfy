/** The state of the echo reactor by the reports it has answered: who is connected, what each
    connection has said and been told, and when the server stops. */
module ReactorHistory {
  import opened Runs
  import opened ReactorSpec

  /** The descriptors in use: those accepted and not closed since. */
  function Open(h: seq<Report>, listenfd: int): set<int> {
    if h == [] then {listenfd}
    else
      var past, r := Open(h[..|h| - 1], listenfd), h[|h| - 1];
      if r.io.Accepted? then past + {r.io.confd} else if r.io.PeerClosed? then past - {r.fd} else past
  }

  /** One connection: the bytes received and those sent, what is to be sent next, and how
      many bytes short sends have left out. */
  datatype Talk = Talk(got: seq<Byte>, sent: seq<Byte>, pending: seq<Byte>, lost: nat)

  /** The talk on a descriptor since it was last accepted. */
  function Talked(h: seq<Report>, fd: int): Talk {
    if h == [] then Talk([], [], [], 0)
    else
      var t, r := Talked(h[..|h| - 1], fd), h[|h| - 1];
      if r.io == Accepted(fd) then Talk([], [], [], 0)
      else if r.fd != fd then t
      else if r.io.Received? then Talk(t.got + r.io.bytes, t.sent, Upper(r.io.bytes), t.lost)
      else if r.io.Sent? && 0 <= r.io.len <= |t.pending| then
        Talk(t.got, t.sent + t.pending[..r.io.len], [], t.lost + |t.pending| - r.io.len)
      else t
  }

  /** The connections that their clients have closed, in order. */
  function Closed(h: seq<Report>): seq<Conn> {
    if h == [] then []
    else
      var past, r := h[..|h| - 1], h[|h| - 1];
      var t := Talked(past, r.fd);
      Closed(past) + if r.io.PeerClosed? then [Conn(t.got, t.sent, t.lost)] else []
  }

  /** An accept, recv or send has failed, or a client came while MAX_EVENTS were connected. */
  predicate Failed(h: seq<Report>, listenfd: int) {
    h != [] &&
    var past, io := h[..|h| - 1], h[|h| - 1].io;
    (Failed(past, listenfd)
     || (io.Accepted? && (io.confd < 0 || |Open(past, listenfd)| == MAX_EVENTS + 1))
     || io.RecvFailed? || (io.Sent? && io.len < 0))
  }

  lemma Next(h: seq<Report>, r: Report, listenfd: int)
    ensures var past := Open(h, listenfd);
            Open(h + [r], listenfd) ==
            if r.io.Accepted? then past + {r.io.confd} else if r.io.PeerClosed? then past - {r.fd} else past
    ensures Failed(h + [r], listenfd) <==>
              (Failed(h, listenfd)
               || (r.io.Accepted? && (r.io.confd < 0 || |Open(h, listenfd)| == MAX_EVENTS + 1))
               || r.io.RecvFailed? || (r.io.Sent? && r.io.len < 0))
    ensures var t := Talked(h, r.fd);
            Closed(h + [r]) ==
            Closed(h) + if r.io.PeerClosed? then [Conn(t.got, t.sent, t.lost)] else []
  {
    assert (h + [r])[..|h|] == h;
  }

  lemma TalkGoesOn(h: seq<Report>, r: Report, fd: int)
    ensures var t := Talked(h, fd);
            Talked(h + [r], fd) ==
            if r.io == Accepted(fd) then Talk([], [], [], 0)
            else if r.fd != fd then t
            else if r.io.Received? then Talk(t.got + r.io.bytes, t.sent, Upper(r.io.bytes), t.lost)
            else if r.io.Sent? && 0 <= r.io.len <= |t.pending| then
              Talk(t.got, t.sent + t.pending[..r.io.len], [], t.lost + |t.pending| - r.io.len)
            else t
  {
    assert (h + [r])[..|h|] == h;
  }

  // ---- The table has a slot for every open descriptor.

  function Fds(slots: seq<Slot>, k: nat): set<int>
    requires k <= |slots|
  {
    if k == 0 then {} else Fds(slots, k - 1) + if slots[k - 1].registered then {slots[k - 1].fd} else {}
  }

  lemma {:induction false} FdsAre(slots: seq<Slot>, k: nat, fd: int)
    requires k <= |slots|
    ensures fd in Fds(slots, k) <==> exists i :: 0 <= i < k && slots[i].registered && slots[i].fd == fd
  {
    if k > 0 {
      FdsAre(slots, k - 1, fd);
    }
  }

  lemma {:induction false} FdsCount(slots: seq<Slot>, k: nat)
    requires k <= |slots|
    requires forall i, j :: 0 <= i < j < |slots| && slots[i].registered && slots[j].registered ==>
               slots[i].fd != slots[j].fd
    ensures |Fds(slots, k)| <= k
    ensures |Fds(slots, k)| == k <==> forall i :: 0 <= i < k ==> slots[i].registered
  {
    if k > 0 {
      FdsCount(slots, k - 1);
      FdsAre(slots, k - 1, slots[k - 1].fd);
    }
  }

  /** There is no free slot exactly when MAX_EVENTS connections are open beside the listener. */
  lemma FullExactly(s: State)
    requires Inv(s) && !s.exited
    ensures !HasRoom(s.slots) <==> |s.open| == MAX_EVENTS + 1
  {
    FdsCount(s.slots, MAX_EVENTS + 1);
    forall fd ensures fd in s.open <==> fd in Fds(s.slots, MAX_EVENTS + 1) {
      FdsAre(s.slots, MAX_EVENTS + 1, fd);
    }
    assert s.open == Fds(s.slots, MAX_EVENTS + 1);
  }

  // ---- Every slot tells the talk on its descriptor.

  predicate Tells(ev: Slot, c: Conn, t: Talk) {
    c.got == t.got && c.sent == t.sent && c.lost == t.lost && Pending(ev) == t.pending
    && (ev.callBack == Send <==> t.pending != [])
  }

  ghost predicate AllTell(slots: seq<Slot>, conns: seq<Conn>, h: seq<Report>) {
    && |slots| == |conns| == MAX_EVENTS + 1
    && forall i :: 0 <= i < MAX_EVENTS && slots[i].registered ==> Tells(slots[i], conns[i], Talked(h, slots[i].fd))
  }

  /** A report leaves the talk of every slot but i as it is. */
  ghost predicate Concerns(slots: seq<Slot>, r: Report, i: nat) {
    forall j :: 0 <= j < |slots| && j != i && j < MAX_EVENTS && slots[j].registered ==>
      slots[j].fd != r.fd && r.io != Accepted(slots[j].fd)
  }

  lemma OthersTell(slots: seq<Slot>, conns: seq<Conn>, h: seq<Report>, r: Report, i: nat, n: Slot, c: Conn)
    requires AllTell(slots, conns, h) && i < |slots| && Concerns(slots, r, i)
    requires n.registered && i < MAX_EVENTS ==> Tells(n, c, Talked(h + [r], n.fd))
    ensures AllTell(slots[i := n], conns[i := c], h + [r])
  {
    forall j | 0 <= j < MAX_EVENTS && j != i && slots[j].registered
      ensures Tells(slots[j], conns[j], Talked(h + [r], slots[j].fd))
    {
      TalkGoesOn(h, r, slots[j].fd);
    }
  }

  ghost predicate Told(s: State, h: seq<Report>, listenfd: int) {
    && (s.exited <==> Failed(h, listenfd))
    && (!s.exited ==>
          && Inv(s) && s.slots[MAX_EVENTS].fd == listenfd
          && s.open == Open(h, listenfd) && s.ended == Closed(h) && AllTell(s.slots, s.conns, h))
  }

  lemma AcceptIsTold(s: State, h: seq<Report>, listenfd: int, r: Report)
    requires Told(s, h, listenfd) && !s.exited && r.fd == listenfd && r.io.Accepted? && r.io.confd !in s.open
    requires r.fd in s.interest && s.interest[r.fd].slot == MAX_EVENTS
    ensures Told(AcceptConnect(s, r.io.confd), h + [r], listenfd)
  {
    var confd := r.io.confd;
    Next(h, r, listenfd);
    FullExactly(s);
    AcceptKeepsInv(s, confd);
    if confd >= 0 && HasRoom(s.slots) {
      NewcomerTells(s, h, r);
    }
  }

  lemma NewcomerTells(s: State, h: seq<Report>, r: Report)
    requires Inv(s) && !s.exited && AllTell(s.slots, s.conns, h) && HasRoom(s.slots)
    requires r.io.Accepted? && r.io.confd >= 0 && r.io.confd !in s.open && Concerns(s.slots, r, MAX_EVENTS)
    ensures var n := AcceptConnect(s, r.io.confd);
            && AllTell(n.slots, n.conns, h + [r])
            && n.slots[MAX_EVENTS] == s.slots[MAX_EVENTS] && n.open == s.open + {r.io.confd} && n.ended == s.ended
  {
    var j := FreeSlot(s.slots, 0);
    AcceptIs(s, r.io.confd);
    SlotTells(s.slots, s.conns, h, r, j, NewSlot(s.slots[j], r.io.confd));
  }

  lemma SlotTells(slots: seq<Slot>, conns: seq<Conn>, h: seq<Report>, r: Report, j: nat, n: Slot)
    requires AllTell(slots, conns, h) && j < MAX_EVENTS && Concerns(slots, r, MAX_EVENTS) && !slots[j].registered
    requires r.io == Accepted(n.fd) && n.callBack == Recv
    ensures AllTell(slots[j := n], conns[j := Conn([], [], 0)], h + [r])
  {
    TalkGoesOn(h, r, n.fd);
    OthersTell(slots, conns, h, r, j, n, Conn([], [], 0));
  }

  lemma SendIsTold(s: State, h: seq<Report>, listenfd: int, r: Report, i: nat)
    requires Told(s, h, listenfd) && !s.exited && r.io.Sent?
    requires i < MAX_EVENTS && s.slots[i].registered && s.slots[i].callBack == Send && s.slots[i].fd == r.fd
    requires r.io.len <= s.slots[i].datalen && Concerns(s.slots, r, i)
    ensures Told(SendData(s, i, r.io.len), h + [r], listenfd)
  {
    Next(h, r, listenfd);
    SendKeepsInv(s, i, r.io.len);
    if r.io.len >= 0 {
      var c, ev, len := s.conns[i], s.slots[i], r.io.len;
      var d := Conn(c.got, c.sent + ev.buf[..len], c.lost + ev.datalen - len);
      RearmSucceeds(s.(conns := s.conns[i := d]), i, In, Recv);
      SentTells(s.slots, s.conns, h, r, i, EventSet(ev, ev.fd, In, Recv).(registered := true));
    }
  }

  lemma SentTells(slots: seq<Slot>, conns: seq<Conn>, h: seq<Report>, r: Report, i: nat, n: Slot)
    requires AllTell(slots, conns, h) && i < MAX_EVENTS && Concerns(slots, r, i) && slots[i].registered
    requires slots[i].callBack == Send && n.callBack == Recv && n.fd == r.fd == slots[i].fd
    requires r.io.Sent? && 0 <= r.io.len <= slots[i].datalen <= |slots[i].buf|
    ensures var c, ev, len := conns[i], slots[i], r.io.len;
            AllTell(slots[i := n], conns[i := Conn(c.got, c.sent + ev.buf[..len], c.lost + ev.datalen - len)], h + [r])
  {
    var c, ev, len := conns[i], slots[i], r.io.len;
    TalkGoesOn(h, r, r.fd);
    assert Pending(ev)[..len] == ev.buf[..len];
    OthersTell(slots, conns, h, r, i, n, Conn(c.got, c.sent + ev.buf[..len], c.lost + ev.datalen - len));
  }

  lemma ReceivedIsTold(s: State, h: seq<Report>, listenfd: int, r: Report, i: nat)
    requires Told(s, h, listenfd) && !s.exited && r.io.Received?
    requires i < MAX_EVENTS && s.slots[i].registered && s.slots[i].callBack == Recv && s.slots[i].fd == r.fd
    requires 0 < |r.io.bytes| <= |s.slots[i].buf| && Concerns(s.slots, r, i)
    ensures Told(RecvData(s, i, r.io), h + [r], listenfd)
  {
    var c, ev, bytes := s.conns[i], s.slots[i], r.io.bytes;
    Next(h, r, listenfd);
    ReceivedKeepsInv(s, i, bytes);
    RecvAnswers(c, bytes, ev.buf);
    var d, e := c.(got := c.got + bytes), ev.(buf := Filled(ev.buf, bytes), datalen := |bytes|);
    var n := EventSet(e, e.fd, Out, Send).(registered := true);
    RearmSucceeds(s.(slots := s.slots[i := e], conns := s.conns[i := d]), i, Out, Send);
    assert s.slots[i := e][i := n] == s.slots[i := n];
    TalkGoesOn(h, r, r.fd);
    OthersTell(s.slots, s.conns, h, r, i, n, d);
  }

  lemma CloseIsTold(s: State, h: seq<Report>, listenfd: int, r: Report, i: nat)
    requires Told(s, h, listenfd) && !s.exited && r.io.PeerClosed?
    requires i < MAX_EVENTS && s.slots[i].registered && s.slots[i].callBack == Recv && s.slots[i].fd == r.fd
    requires Concerns(s.slots, r, i)
    ensures Told(RecvData(s, i, r.io), h + [r], listenfd)
  {
    Next(h, r, listenfd);
    RecvKeepsInv(s, i, r.io);
    OthersTell(s.slots, s.conns, h, r, i, s.slots[i].(registered := false), s.conns[i]);
    assert s.conns[i := s.conns[i]] == s.conns;
  }

  lemma StepIsTold(s: State, h: seq<Report>, listenfd: int, r: Report)
    requires Told(s, h, listenfd) && Step(s, r).Some?
    ensures Told(Step(s, r).value, h + [r], listenfd)
  {
    var i := s.interest[r.fd].slot;
    match s.slots[i].callBack
    case Accept => AcceptIsTold(s, h, listenfd, r);
    case Send => SendIsTold(s, h, listenfd, r, i);
    case Recv =>
      if r.io.Received? {
        ReceivedIsTold(s, h, listenfd, r, i);
      } else if r.io.PeerClosed? {
        CloseIsTold(s, h, listenfd, r, i);
      } else {
        Next(h, r, listenfd);
      }
  }

  /** The reports of a run that the server has answered. */
  function Past(listenfd: int, reports: seq<Report>): seq<Report> { Made(Step, Init(listenfd), reports) }

  lemma RunIsTold(listenfd: int, reports: seq<Report>)
    ensures Told(Exec(Step, Init(listenfd), reports), Past(listenfd, reports), listenfd)
  {
    InitInv(listenfd);
    forall s, h, r | Told(s, h, listenfd) && Step(s, r).Some? ensures Told(Step(s, r).value, h + [r], listenfd) {
      StepIsTold(s, h, listenfd, r);
    }
    History(Step, (s, h) => Told(s, h, listenfd), Init(listenfd), [], reports);
    assert [] + Past(listenfd, reports) == Past(listenfd, reports);
  }

  // ---- Main results.

  /** What the table says is what the reports so far ask for: it has stopped at the first
      failure or client too many; else it has one slot for every client that has come and
      not gone, which has received, been sent and is to be sent what its reports say. */
  lemma ReportsDecide(listenfd: int, reports: seq<Report>)
    ensures var s, h := Exec(Step, Init(listenfd), reports), Past(listenfd, reports);
            && (s.exited <==> Failed(h, listenfd))
            && (!s.exited ==>
                  && |s.slots| == |s.conns| == MAX_EVENTS + 1
                  && s.open == Open(h, listenfd) == s.interest.Keys && s.ended == Closed(h)
                  && (forall fd :: fd in Open(h, listenfd) && fd != listenfd ==>
                        var i := s.interest[fd].slot;
                        i < MAX_EVENTS && s.slots[i].registered && s.slots[i].fd == fd
                        && Tells(s.slots[i], s.conns[i], Talked(h, fd))))
  {
    RunIsTold(listenfd, reports);
  }

  /** The callback for a descriptor is called, unless the server has stopped, exactly for
      these reports: the listener gives new descriptors, a client with nothing pending
      speaks, closes or fails, and one with something pending takes up to all of it. */
  lemma AnswersExactly(listenfd: int, reports: seq<Report>, r: Report)
    ensures var h := Past(listenfd, reports);
            Step(Exec(Step, Init(listenfd), reports), r).Some? <==>
              (!Failed(h, listenfd) && r.fd in Open(h, listenfd) &&
               if r.fd == listenfd then r.io.Accepted? && r.io.confd !in Open(h, listenfd)
               else if Talked(h, r.fd).pending == [] then
                 r.io.PeerClosed? || r.io.RecvFailed? || (r.io.Received? && 0 < |r.io.bytes| <= BUF_SIZE)
               else r.io.Sent? && r.io.len <= |Talked(h, r.fd).pending|)
  {
    ReportsDecide(listenfd, reports);
    RunIsTold(listenfd, reports);
  }

  /** The slot and the descriptor of a client are given back, and nothing else changes. */
  ghost predicate Leaves(s: State, n: State, fd: int)
    requires fd in s.interest
  {
    var i := s.interest[fd].slot;
    && i < MAX_EVENTS < |s.slots| == |n.slots| == |s.conns| && !n.slots[i].registered
    && fd !in n.open && fd !in n.interest && n.open == s.open - {fd} && n.interest.Keys == s.interest.Keys - {fd}
    && n.ended == s.ended + [s.conns[i]] && n.conns == s.conns
    && (forall j :: 0 <= j < |s.slots| && j != i ==> n.slots[j] == s.slots[j])
    && (forall x :: x in n.interest ==> x in s.interest && n.interest[x] == s.interest[x])
  }

  /** In every run a connection whose client closes it ends, and the server goes on. */
  lemma CloseIsAnswered(listenfd: int, reports: seq<Report>, fd: int)
    ensures var s := Exec(Step, Init(listenfd), reports);
            !s.exited && fd in s.interest && fd != listenfd ==>
            && s.interest[fd].slot < |s.slots|
            && (s.slots[s.interest[fd].slot].callBack == Recv ==>
                  var o := Step(s, Report(fd, PeerClosed));
                  o.Some? && !o.value.exited && Leaves(s, o.value, fd))
  {
    RunIsTold(listenfd, reports);
    var s := Exec(Step, Init(listenfd), reports);
    if !s.exited && fd in s.interest && fd != listenfd && s.slots[s.interest[fd].slot].callBack == Recv {
      RecvKeepsInv(s, s.interest[fd].slot, PeerClosed);
    }
  }

  /** Whatever the reports were, a client has been sent, with what is pending, the upper case
      of all it has said exactly when no send to it fell short; so has one that has closed. */
  lemma ClientsAreEchoed(listenfd: int, reports: seq<Report>, fd: int)
    ensures var h := Past(listenfd, reports);
            var t := Talked(h, fd);
            !Failed(h, listenfd) ==>
              && (fd in Open(h, listenfd) && fd != listenfd ==>
                    (t.sent + t.pending == Upper(t.got) <==> t.lost == 0))
              && (forall k :: 0 <= k < |Closed(h)| ==>
                    (Closed(h)[k].sent == Upper(Closed(h)[k].got) <==> Closed(h)[k].lost == 0))
  {
    RunIsTold(listenfd, reports);
    EndedAreAnswered(listenfd, reports);
    var s := Exec(Step, Init(listenfd), reports);
    if !s.exited && fd in s.open && fd != listenfd {
      var i := s.interest[fd].slot;
      assert Answered(s.conns[i], Pending(s.slots[i]));
    }
  }
}
