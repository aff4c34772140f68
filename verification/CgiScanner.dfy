/** The request scanner of process/CGI_server/cgi_server.h: `process` is called whenever the
    socket is readable, keeps what it has received between calls, and asks for the program
    named before the first CRLF. */
module CgiScanner {
  import opened Runs

  type Byte = x: int | 0 <= x < 256

  /** Line 98. */
  const BUFFER_SIZE := 1024

  /** What the kernel does with one recv (line 47): gives at most atMost + 1 bytes of what
      the client has sent, says EAGAIN, fails otherwise, or says the client has closed.
      With nothing to give, it says EAGAIN. */
  datatype Reply = Bytes(atMost: nat) | Again | Failed | Hangup

  /** A connection that has received `got` bytes of the client's stream, one that was
      removed, and one removed after asking for a program (lines 71-90). */
  datatype Conn = Open(got: nat) | Closed | Asked(file: seq<Byte>)

  /** A CRLF ends before position e. */
  predicate Crlf(s: seq<Byte>, e: nat) { 2 <= e <= |s| && s[e - 2] == 13 && s[e - 1] == 10 }

  ghost predicate NoCrlf(s: seq<Byte>, end: nat) { forall e: nat :: e <= end ==> !Crlf(s, e) }

  ghost predicate FirstCrlf(s: seq<Byte>, e: nat) { Crlf(s, e) && forall d: nat :: d < e ==> !Crlf(s, d) }

  /** Lines 62-64. */
  function Scan(s: seq<Byte>, index: nat, end: nat): (r: nat)
    requires index <= end <= |s|
    ensures index <= r <= end && (r < end ==> Crlf(s, r + 1))
    ensures forall e: nat :: index < e <= r ==> !Crlf(s, e)
    decreases end - index
  {
    if index == end || Crlf(s, index + 1) then index else Scan(s, index + 1, end)
  }

  /** What access and execl read from a buffer: up to the first zero. */
  function CString(s: seq<Byte>): (r: seq<Byte>)
    ensures r <= s && 0 !in r && (|r| < |s| ==> s[|r|] == 0)
  {
    if s == [] || s[0] == 0 then [] else [s[0]] + CString(s[1..])
  }

  lemma {:induction false} CStringStops(s: seq<Byte>, rest: seq<Byte>)
    ensures CString(s + [0] + rest) == CString(s)
  {
    var t := s + [0] + rest;
    if s == [] || s[0] == 0 {
    } else {
      assert t[1..] == s[1..] + [0] + rest;
      CStringStops(s[1..], rest);
    }
  }

  function Min(a: nat, b: nat): nat { if a < b then a else b }

  /** How many bytes a recv gives. */
  function Given(stream: seq<Byte>, got: nat, atMost: nat): nat
    requires got < |stream| && got < BUFFER_SIZE
  {
    Min(atMost + 1, Min(BUFFER_SIZE - 1 - got, |stream| - got))
  }

  /** One turn of the loop in lines 45-92, with `stream` all that the client ever sends.
      A recv into a full buffer gives zero bytes of what there is, which reads as a hangup. */
  function Receive(stream: seq<Byte>, c: Conn, reply: Reply): Conn {
    if !c.Open? then c else
    match reply
    case Again => c
    case Failed => Closed
    case Hangup => Closed
    case Bytes(k) =>
      if c.got >= |stream| then c
      else if c.got >= BUFFER_SIZE - 1 then Closed
      else
        var end := c.got + Given(stream, c.got, k);
        var index := Scan(stream, c.got, end);
        if index == end then Open(end) else Asked(CString(stream[..index - 1]))
  }

  function Step(stream: seq<Byte>): (Conn, Reply) -> Option<Conn> {
    (c, reply) => Some(Receive(stream, c, reply))
  }

  /** A new connection after any number of recvs, in however many calls of process. */
  function After(stream: seq<Byte>, replies: seq<Reply>): Conn {
    Exec(Step(stream), Open(0), replies)
  }

  // ---- What the answer means.

  ghost predicate Inv(stream: seq<Byte>, c: Conn) {
    match c
    case Open(got) => got <= |stream| && got < BUFFER_SIZE && NoCrlf(stream, got)
    case Asked(file) => exists e: nat :: FirstCrlf(stream, e) && e < BUFFER_SIZE && file == CString(stream[..e - 2])
    case Closed => true
  }

  lemma ReceiveKeepsInv(stream: seq<Byte>, c: Conn, reply: Reply)
    requires Inv(stream, c)
    ensures Inv(stream, Receive(stream, c, reply))
  {
    if c.Open? && reply.Bytes? && c.got < BUFFER_SIZE - 1 && c.got < |stream| {
      var index := Scan(stream, c.got, c.got + Given(stream, c.got, reply.atMost));
      if index < c.got + Given(stream, c.got, reply.atMost) {
        assert FirstCrlf(stream, index + 1);
      }
    }
  }

  /** However the stream is cut into recvs and calls of process: a program is asked for only
      if the first CRLF ends within BUFFER_SIZE - 1 bytes, by exactly the bytes before it,
      and until then no CRLF is in the buffer. */
  lemma AsksForTheFirstLine(stream: seq<Byte>, replies: seq<Reply>)
    ensures Inv(stream, After(stream, replies))
  {
    forall c, reply | Inv(stream, c) ensures Inv(stream, Receive(stream, c, reply)) {
      ReceiveKeepsInv(stream, c, reply);
    }
    Invariant(Step(stream), c => Inv(stream, c), Open(0), replies);
  }

  /** Two ways to cut the same stream never ask for different programs. */
  lemma ChunkingDoesNotMatter(stream: seq<Byte>, a: seq<Reply>, b: seq<Reply>)
    requires After(stream, a).Asked? && After(stream, b).Asked?
    ensures After(stream, a) == After(stream, b)
  {
    AsksForTheFirstLine(stream, a);
    AsksForTheFirstLine(stream, b);
  }

  // ---- When it is asked.

  predicate Undisturbed(replies: seq<Reply>) {
    forall i :: 0 <= i < |replies| ==> replies[i].Bytes? || replies[i].Again?
  }

  function Recvs(replies: seq<Reply>): nat {
    if replies == [] then 0 else (if replies[0].Bytes? then 1 else 0) + Recvs(replies[1..])
  }

  /** Where n more recvs that the kernel answers with bytes leave a connection. */
  ghost predicate Served(stream: seq<Byte>, c: Conn, n: nat) {
    match c
    case Open(got) => got <= |stream| && (n <= got || got == |stream|)
    case Asked(_) => true
    case Closed => BUFFER_SIZE <= |stream| && NoCrlf(stream, BUFFER_SIZE - 1)
  }

  lemma {:induction false} EveryRecvHelps(stream: seq<Byte>, c: Conn, n: nat, replies: seq<Reply>)
    requires Inv(stream, c) && Served(stream, c, n) && Undisturbed(replies)
    ensures Served(stream, Exec(Step(stream), c, replies), n + Recvs(replies))
    decreases |replies|
  {
    if replies != [] {
      ReceiveKeepsInv(stream, c, replies[0]);
      var m := if replies[0].Bytes? then n + 1 else n;
      assert Served(stream, Receive(stream, c, replies[0]), m);
      EveryRecvHelps(stream, Receive(stream, c, replies[0]), m, replies[1..]);
    }
  }

  /** With BUFFER_SIZE recvs and no failure, what becomes of a connection depends on its
      stream alone: asked, dropped, or waiting for more. */
  lemma OutcomeIsExact(stream: seq<Byte>, replies: seq<Reply>)
    requires Undisturbed(replies) && Recvs(replies) >= BUFFER_SIZE
    ensures After(stream, replies).Asked? <==> exists e: nat :: FirstCrlf(stream, e) && e < BUFFER_SIZE
    ensures After(stream, replies).Closed? <==> |stream| >= BUFFER_SIZE && NoCrlf(stream, BUFFER_SIZE - 1)
    ensures After(stream, replies) == Open(|stream|) <==> |stream| < BUFFER_SIZE && NoCrlf(stream, |stream|)
  {
    var c := After(stream, replies);
    AsksForTheFirstLine(stream, replies);
    EveryRecvHelps(stream, Open(0), 0, replies);
  }

  // ---- What the replies decide.

  /** The client has closed or a recv has failed. */
  predicate Ended(h: seq<Reply>) { exists k :: 0 <= k < |h| && (h[k].Hangup? || h[k].Failed?) }

  /** How many bytes the kernel was ready to give before that. */
  function Offered(h: seq<Reply>): nat {
    if h == [] then 0
    else
      var past, last := h[..|h| - 1], h[|h| - 1];
      Offered(past) + if last.Bytes? && !Ended(past) then last.atMost + 1 else 0
  }

  /** A recv has found the buffer full and more to come. */
  predicate Overrun(stream: seq<Byte>, h: seq<Reply>) {
    h != [] &&
    var past := h[..|h| - 1];
    (Overrun(stream, past)
     || (h[|h| - 1].Bytes? && Offered(past) >= BUFFER_SIZE - 1 && |stream| >= BUFFER_SIZE))
  }

  /** How much of the stream fits and has been offered. */
  function Arrived(stream: seq<Byte>, h: seq<Reply>): nat { Min(Min(Offered(h), BUFFER_SIZE - 1), |stream|) }

  lemma RepliesNext(stream: seq<Byte>, h: seq<Reply>, reply: Reply)
    ensures Offered(h + [reply]) == Offered(h) + if reply.Bytes? && !Ended(h) then reply.atMost + 1 else 0
    ensures Overrun(stream, h + [reply]) <==>
              Overrun(stream, h) || (reply.Bytes? && Offered(h) >= BUFFER_SIZE - 1 && |stream| >= BUFFER_SIZE)
    ensures Ended(h + [reply]) <==> Ended(h) || reply.Hangup? || reply.Failed?
  {
    var n := h + [reply];
    assert n[..|h|] == h && n[|h|] == reply;
    if Ended(h) {
      var k :| 0 <= k < |h| && (h[k].Hangup? || h[k].Failed?);
      assert n[k] == h[k];
    }
  }

  ghost predicate Decided(stream: seq<Byte>, c: Conn, h: seq<Reply>) {
    && (Overrun(stream, h) ==> Offered(h) >= BUFFER_SIZE - 1 && |stream| >= BUFFER_SIZE)
    && match c
       case Open(got) => got == Arrived(stream, h) && NoCrlf(stream, got) && !Ended(h) && !Overrun(stream, h)
       case Asked(file) =>
         exists e: nat :: FirstCrlf(stream, e) && e <= Arrived(stream, h) && file == CString(stream[..e - 2])
       case Closed => NoCrlf(stream, Arrived(stream, h)) && (Ended(h) || Overrun(stream, h))
  }

  lemma ReplyDecides(stream: seq<Byte>, c: Conn, h: seq<Reply>, reply: Reply)
    requires Decided(stream, c, h)
    ensures Decided(stream, Receive(stream, c, reply), h + [reply])
  {
    RepliesNext(stream, h, reply);
    if c.Open? && reply.Bytes? && c.got < BUFFER_SIZE - 1 && c.got < |stream| {
      BytesDecide(stream, c, h, reply);
    } else if c.Asked? {
      var e: nat :| FirstCrlf(stream, e) && e <= Arrived(stream, h) && c.file == CString(stream[..e - 2]);
      assert e <= Arrived(stream, h + [reply]);
    }
  }

  lemma BytesDecide(stream: seq<Byte>, c: Conn, h: seq<Reply>, reply: Reply)
    requires Decided(stream, c, h) && c.Open? && reply.Bytes? && c.got < BUFFER_SIZE - 1 && c.got < |stream|
    ensures Decided(stream, Receive(stream, c, reply), h + [reply])
  {
    RepliesNext(stream, h, reply);
    var end := c.got + Given(stream, c.got, reply.atMost);
    assert Arrived(stream, h + [reply]) == end;
    var index := Scan(stream, c.got, end);
    if index < end { assert FirstCrlf(stream, index + 1); }
  }

  /** Whatever the kernel replies, what becomes of a connection is decided by how much it
      offered: asked exactly if the first CRLF is in that; else dropped exactly if the client
      closed, a recv failed or the buffer overran; else it has what was offered. */
  lemma RepliesDecide(stream: seq<Byte>, replies: seq<Reply>)
    ensures var c, n := After(stream, replies), Arrived(stream, replies);
            && (c.Asked? <==> exists e: nat :: FirstCrlf(stream, e) && e <= n)
            && (c.Closed? <==> NoCrlf(stream, n) && (Ended(replies) || Overrun(stream, replies)))
            && (c.Open? ==> c.got == n)
  {
    forall c, h, reply | Decided(stream, c, h) ensures Decided(stream, Receive(stream, c, reply), h + [reply]) {
      ReplyDecides(stream, c, h, reply);
    }
    History(Step(stream), (c, h) => Decided(stream, c, h), Open(0), [], replies);
    AllAreMade(stream, Open(0), replies);
    assert [] + replies == replies;
  }

  lemma {:induction false} AllAreMade(stream: seq<Byte>, c: Conn, replies: seq<Reply>)
    ensures Made(Step(stream), c, replies) == replies
    decreases |replies|
  {
    if replies != [] {
      AllAreMade(stream, Receive(stream, c, replies[0]), replies[1..]);
    }
  }

  // ---- The connection in place.

  class CgiConn {
    const buf: array<Byte>
    var readIndex: nat
    var open: bool
    var file: Option<seq<Byte>>

    /** What the source is left with between calls of process. */
    ghost predicate Valid(stream: seq<Byte>)
      reads this, buf
    {
      && buf.Length == BUFFER_SIZE
      && (open ==>
            file.None? && readIndex < BUFFER_SIZE && readIndex <= |stream| && buf[..readIndex] == stream[..readIndex])
    }

    ghost function Abs(): Conn
      reads this
    {
      if open then Open(readIndex) else if file.Some? then Asked(file.value) else Closed
    }

    /** Lines 32-39, for a connection registered with epoll. */
    constructor ()
      ensures forall stream :: Valid(stream)
      ensures Abs() == Open(0)
    {
      buf := new Byte[BUFFER_SIZE](_ => 0);
      readIndex, open, file := 0, true, None;
    }

    /** Line 47: puts what the kernel gives behind what was received. */
    method Recv(stream: seq<Byte>, atMost: nat) returns (ret: nat)
      requires Valid(stream) && open && readIndex < |stream| && readIndex < BUFFER_SIZE - 1
      modifies buf
      ensures ret == Given(stream, readIndex, atMost) && readIndex + ret < BUFFER_SIZE
      ensures buf[..readIndex + ret] == stream[..readIndex + ret]
    {
      ret := Given(stream, readIndex, atMost);
      var i := 0;
      while i < ret
        invariant i <= ret && buf[..readIndex + i] == stream[..readIndex + i]
      {
        buf[readIndex + i] := stream[readIndex + i];
        i := i + 1;
      }
    }

    /** Lines 62-64. */
    method Find(stream: seq<Byte>, from: nat) returns (index: nat)
      requires from <= readIndex < buf.Length && readIndex <= |stream| && buf[..readIndex] == stream[..readIndex]
      ensures index == Scan(stream, from, readIndex)
    {
      index := from;
      while index < readIndex
        invariant from <= index <= readIndex
        invariant Scan(stream, index, readIndex) == Scan(stream, from, readIndex)
      {
        assert buf[index] == buf[..readIndex][index];
        assert index >= 1 ==> buf[index - 1] == buf[..readIndex][index - 1];
        if index >= 1 && buf[index - 1] == 13 && buf[index] == 10 {
          break;
        }
        index := index + 1;
      }
    }

    /** Lines 69-72: the file name that access and execl see. */
    method FileName(stream: seq<Byte>, index: nat) returns (name: seq<Byte>)
      requires 0 < index <= readIndex <= buf.Length && readIndex <= |stream| && buf[..readIndex] == stream[..readIndex]
      modifies buf
      ensures name == CString(stream[..index - 1])
    {
      assert buf[..index] == buf[..readIndex][..index];
      buf[index - 1] := 0;
      name := CString(buf[..]);
      assert buf[..index - 1] == stream[..index - 1];
      assert buf[..] == stream[..index - 1] + [0] + buf[index..];
      CStringStops(stream[..index - 1], buf[index..]);
    }

    /** Lines 57-91 for what a recv gives; `more` tells whether no CRLF has been found. */
    method Take(stream: seq<Byte>, atMost: nat) returns (more: bool)
      requires Valid(stream) && open && readIndex < |stream| && readIndex < BUFFER_SIZE - 1
      modifies this, buf
      ensures Valid(stream) && Abs() == Receive(stream, old(Abs()), Bytes(atMost))
      ensures more <==> open
      ensures more ==> readIndex > old(readIndex)
    {
      var from := readIndex;
      var ret := Recv(stream, atMost);
      readIndex := readIndex + ret;
      var index := Find(stream, from);
      more := index == readIndex;
      if !more {
        var name := FileName(stream, index);
        open, file := false, Some(name);
      }
    }

    /** Lines 46-91: one turn of the loop; `more` tells whether there is another. */
    method Turn(stream: seq<Byte>, reply: Reply) returns (more: bool)
      requires Valid(stream) && open
      modifies this, buf
      ensures Valid(stream) && Abs() == Receive(stream, old(Abs()), reply)
      ensures more <==> open && reply.Bytes? && readIndex > old(readIndex)
    {
      more := false;
      match reply
      case Again =>
      case Failed => open := false;
      case Hangup => open := false;
      case Bytes(atMost) =>
        if readIndex == |stream| {
          return;
        }
        if readIndex == BUFFER_SIZE - 1 {
          open := false;
          return;
        }
        more := Take(stream, atMost);
    }

    /** Lines 41-93: one call of process, which uses up some of the kernel's replies. */
    method Process(stream: seq<Byte>, replies: seq<Reply>) returns (used: nat)
      requires Valid(stream) && open
      modifies this, buf
      ensures Valid(stream) && used <= |replies|
      ensures Abs() == Exec(Step(stream), old(Abs()), replies[..used])
      ensures used < |replies| ==> used > 0 && (replies[used - 1].Again? || !open || readIndex == |stream|)
    {
      used := 0;
      var more := true;
      while more && used < |replies|
        invariant Valid(stream) && used <= |replies| && (more ==> open)
        invariant Abs() == Exec(Step(stream), old(Abs()), replies[..used])
        invariant !more ==> used > 0 && (replies[used - 1].Again? || !open || readIndex == |stream|)
        decreases |replies| - used
      {
        OneMore(stream, old(Abs()), replies, used);
        more := Turn(stream, replies[used]);
        used := used + 1;
      }
    }

    /** process/processpool/processpool.h lines 241-243, where the call is commented out:
        process is called as often as the socket is readable, until the connection is
        removed. */
    method Serve(stream: seq<Byte>, replies: seq<Reply>)
      requires Valid(stream) && Abs() == Open(0)
      modifies this, buf
      ensures Valid(stream) && Abs() == After(stream, replies)
    {
      var done := 0;
      while open && done < |replies|
        invariant Valid(stream) && done <= |replies|
        invariant Abs() == Exec(Step(stream), Open(0), replies[..done])
        decreases |replies| - done
      {
        ghost var c := Abs();
        var used := Process(stream, replies[done..]);
        ExecConcat(Step(stream), Open(0), replies[..done], replies[done..][..used]);
        assert replies[..done] + replies[done..][..used] == replies[..done + used];
        done := done + used;
      }
      ExecConcat(Step(stream), Open(0), replies[..done], replies[done..]);
      assert replies[..done] + replies[done..] == replies;
      if done < |replies| { OnceClosed(stream, Abs(), replies[done..]); }
    }
  }

  lemma {:induction false} OnceClosed(stream: seq<Byte>, c: Conn, replies: seq<Reply>)
    requires !c.Open?
    ensures Exec(Step(stream), c, replies) == c
    decreases |replies|
  {
    if replies != [] {
      OnceClosed(stream, c, replies[1..]);
    }
  }

  lemma OneMore(stream: seq<Byte>, c: Conn, replies: seq<Reply>, k: nat)
    requires k < |replies|
    ensures Exec(Step(stream), c, replies[..k + 1]) == Receive(stream, Exec(Step(stream), c, replies[..k]), replies[k])
  {
    assert replies[..k + 1] == replies[..k] + [replies[k]];
    ExecConcat(Step(stream), c, replies[..k], [replies[k]]);
    var s := Exec(Step(stream), c, replies[..k]);
    assert Exec(Step(stream), s, [replies[k]]) == Exec(Step(stream), Receive(stream, s, replies[k]), []);
  }
}
