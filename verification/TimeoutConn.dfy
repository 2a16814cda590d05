/** The connection wrapper of pq-timeouts: deadlines around every read and write of an inner connection. */
module TimeoutConn {
  import opened Types

  datatype Dir = Reading | Writing

  datatype Deadline = Cleared | At(t: int)

  /**
    A call on the inner connection. Reads and writes carry the time at which they were asked for;
    setting a deadline carries whether it succeeded, which the wrapper does not look at.
   */
  datatype Call =
    | Set(dir: Dir, d: Deadline, ok: bool)
    | SetBoth(d: Deadline, ok: bool)
    | Transfer(dir: Dir, now: int)
    | Close(ok: bool)
    | Address

  /** What the inner connection reports to the calls of one transfer. */
  datatype Reports = Reports(armed: bool, transferred: bool, cleared: bool)

  /** A call on the wrapper, with whether the inner connection will report success. */
  datatype Request =
    | AskTransfer(dir: Dir, now: int, reports: Reports)
    | AskClose(ok: bool)
    | AskAddress
    | AskSet(dir: Dir, d: Deadline, ok: bool)
    | AskSetBoth(d: Deadline, ok: bool)

  datatype Timeouts = Timeouts(read: int, write: int) {
    function For(dir: Dir): int {
      if dir.Reading? then read else write
    }
  }

  /** The calls that one request leads to on a connection that is still there. */
  function CallsFor(t: Timeouts, r: Request): seq<Call> {
    match r
    case AskTransfer(dir, now, reports) =>
      if t.For(dir) != 0 then
        [Set(dir, At(now + t.For(dir)), reports.armed), Transfer(dir, now), Set(dir, Cleared, reports.cleared)]
      else [Transfer(dir, now)]
    case AskClose(ok) => [Close(ok)]
    case AskAddress => [Address]
    case AskSet(dir, d, ok) => [Set(dir, d, ok)]
    case AskSetBoth(d, ok) => [SetBoth(d, ok)]
  }

  predicate Closes(r: Request) {
    r.AskClose? && r.ok
  }

  predicate SomeCloses(requests: seq<Request>) {
    exists i :: 0 <= i < |requests| && Closes(requests[i])
  }

  /** The calls of a sequence of requests: once one of them closes the connection there are no more. */
  function AllCalls(t: Timeouts, requests: seq<Request>): seq<Call> {
    if requests == [] then [] else
    var before := requests[..|requests| - 1];
    AllCalls(t, before) + if SomeCloses(before) then [] else CallsFor(t, requests[|requests| - 1])
  }

  // ---- the wrapper and its inner connection ----

  class InnerConn {
    var calls: seq<Call>

    constructor ()
      ensures calls == []
    {
      calls := [];
    }

    method Do(c: Call)
      modifies this
      ensures calls == old(calls) + [c]
    {
      calls := calls + [c];
    }
  }

  /** The wrapper's own error that the connection is gone, or the inner connection's answer. */
  datatype Answer = NilConn | Inner(ok: bool)

  class Conn {
    var conn: InnerConn?
    const timeouts: Timeouts
    ghost const inner: InnerConn

    constructor (c: InnerConn, timeouts: Timeouts)
      ensures Valid() && conn == c && inner == c && this.timeouts == timeouts
    {
      this.conn, this.inner, this.timeouts := c, c, timeouts;
    }

    ghost predicate Valid()
      reads this
    {
      conn == null || conn == inner
    }

    method Read(now: int, reports: Reports) returns (a: Answer)
      requires Valid()
      modifies inner
      ensures a == if conn == null then NilConn else Inner(reports.transferred)
      ensures inner.calls == old(inner.calls) +
                if conn == null then [] else CallsFor(timeouts, AskTransfer(Reading, now, reports))
    {
      if conn != null {
        if timeouts.read != 0 {
          conn.Do(Set(Reading, At(now + timeouts.read), reports.armed));
        }
        conn.Do(Transfer(Reading, now));
        if timeouts.read != 0 {
          conn.Do(Set(Reading, Cleared, reports.cleared));
        }
        return Inner(reports.transferred);
      }
      return NilConn;
    }

    method Write(now: int, reports: Reports) returns (a: Answer)
      requires Valid()
      modifies inner
      ensures a == if conn == null then NilConn else Inner(reports.transferred)
      ensures inner.calls == old(inner.calls) +
                if conn == null then [] else CallsFor(timeouts, AskTransfer(Writing, now, reports))
    {
      if conn != null {
        if timeouts.write != 0 {
          conn.Do(Set(Writing, At(now + timeouts.write), reports.armed));
        }
        conn.Do(Transfer(Writing, now));
        if timeouts.write != 0 {
          conn.Do(Set(Writing, Cleared, reports.cleared));
        }
        return Inner(reports.transferred);
      }
      return NilConn;
    }

    /** A close that fails leaves the connection usable. */
    method CloseConn(ok: bool) returns (a: Answer)
      requires Valid()
      modifies this, inner
      ensures Valid() && conn == if ok then null else old(conn)
      ensures a == if old(conn) == null then NilConn else Inner(ok)
      ensures inner.calls == old(inner.calls) + if old(conn) == null then [] else [Close(ok)]
    {
      if conn != null {
        conn.Do(Close(ok));
        if ok {
          conn := null;
        }
        return Inner(ok);
      }
      return NilConn;
    }

    /** LocalAddr, RemoteAddr and the deadline setters: passed on if there is a connection. */
    method PassOn(c: Call, ok: bool) returns (a: Answer)
      requires Valid()
      modifies inner
      ensures a == if conn == null then NilConn else Inner(ok)
      ensures inner.calls == old(inner.calls) + if conn == null then [] else [c]
    {
      if conn != null {
        conn.Do(c);
        return Inner(ok);
      }
      return NilConn;
    }

    method Serve(r: Request) returns (a: Answer)
      requires Valid()
      modifies this, inner
      ensures Valid() && conn == if Closes(r) then null else old(conn)
      ensures a.NilConn? <==> old(conn) == null
      ensures inner.calls == old(inner.calls) + if old(conn) == null then [] else CallsFor(timeouts, r)
    {
      match r
      case AskTransfer(Reading, now, reports) => a := Read(now, reports);
      case AskTransfer(Writing, now, reports) => a := Write(now, reports);
      case AskClose(ok) => a := CloseConn(ok);
      case AskAddress => a := PassOn(Address, true);
      case AskSet(dir, d, ok) => a := PassOn(Set(dir, d, ok), ok);
      case AskSetBoth(d, ok) => a := PassOn(SetBoth(d, ok), ok);
    }

    /** Any sequence of calls on a fresh wrapper. */
    method ServeAll(requests: seq<Request>)
      requires Valid() && conn != null
      modifies this, inner
      ensures Valid() && (conn == null <==> SomeCloses(requests))
      ensures inner.calls == old(inner.calls) + AllCalls(timeouts, requests)
    {
      for i := 0 to |requests|
        invariant Valid() && (conn == null <==> SomeCloses(requests[..i]))
        invariant inner.calls == old(inner.calls) + AllCalls(timeouts, requests[..i])
      {
        ClosesSnoc(requests, i);
        var a := Serve(requests[i]);
      }
      assert requests[..|requests|] == requests;
    }
  }

  lemma ClosesSnoc(requests: seq<Request>, i: nat)
    requires i < |requests|
    ensures requests[..i + 1][..i] == requests[..i]
    ensures SomeCloses(requests[..i + 1]) <==> SomeCloses(requests[..i]) || Closes(requests[i])
  {
    assert requests[..i + 1] == requests[..i] + [requests[i]];
    if SomeCloses(requests[..i]) {
      var k :| 0 <= k < i && Closes(requests[..i][k]);
      assert requests[..i + 1][k] == requests[..i][k];
    } else if Closes(requests[i]) {
      assert requests[..i + 1][i] == requests[i];
    }
  }

  // ---- what the inner connection sees over any sequence of calls ----

  /** The call sets the deadline of `dir`: it addresses it, and succeeds. */
  predicate SetsDir(c: Call, dir: Dir) {
    (c.SetBoth? || (c.Set? && c.dir == dir)) && c.ok
  }

  /** The deadline in force in one direction after some calls. */
  function InForce(calls: seq<Call>, dir: Dir): Deadline {
    if calls == [] then Cleared else
    var last := calls[|calls| - 1];
    if SetsDir(last, dir) then last.d else InForce(calls[..|calls| - 1], dir)
  }

  lemma {:induction false} InForceConcat(a: seq<Call>, b: seq<Call>, dir: Dir)
    ensures InForce(a + b, dir) ==
            if (forall i :: 0 <= i < |b| ==> !SetsDir(b[i], dir)) then InForce(a, dir) else InForce(b, dir)
  {
    if b == [] {
      assert a + b == a;
    } else {
      var n := |b| - 1;
      assert (a + b)[..|a + b| - 1] == a + b[..n];
      assert (a + b)[|a + b| - 1] == b[n];
      InForceConcat(a, b[..n], dir);
    }
  }

  predicate TransferAt(calls: seq<Call>, dir: Dir, i: int) {
    0 <= i < |calls| && calls[i].Transfer? && calls[i].dir == dir
  }

  /** The call is one to set the deadline of `dir` to `d`, whether or not it succeeds. */
  predicate Puts(c: Call, dir: Dir, d: Deadline) {
    c.Set? && c.dir == dir && c.d == d
  }

  /**
    The transfer `calls[i]` comes between a call that sets its deadline and one that clears it. The
    deadline in force is the transfer's own if the first succeeds and otherwise what it was before;
    afterwards none is in force if the second succeeds and otherwise it stays.
   */
  predicate Timed(calls: seq<Call>, dir: Dir, i: int, timeout: int)
    requires TransferAt(calls, dir, i)
  {
    var own := At(calls[i].now + timeout);
    && 1 <= i && i + 1 < |calls|
    && Puts(calls[i - 1], dir, own) && Puts(calls[i + 1], dir, Cleared)
    && InForce(calls[..i], dir) == (if calls[i - 1].ok then own else InForce(calls[..i - 1], dir))
    && InForce(calls[..i + 2], dir) == (if calls[i + 1].ok then Cleared else InForce(calls[..i], dir))
  }

  lemma BlockIsTimed(t: Timeouts, earlier: seq<Call>, r: Request, dir: Dir, k: int)
    requires t.For(dir) != 0 && TransferAt(CallsFor(t, r), dir, k)
    ensures TransferAt(earlier + CallsFor(t, r), dir, |earlier| + k)
    ensures Timed(earlier + CallsFor(t, r), dir, |earlier| + k, t.For(dir))
  {
    var block := CallsFor(t, r);
    var calls, n := earlier + block, |earlier|;
    assert k == 1;
    assert calls[..n] == earlier;
    assert calls[..n + 1][..n] == calls[..n];
    assert calls[..n + 2][..n + 1] == calls[..n + 1];
    assert calls[..n + 3][..n + 2] == calls[..n + 2];
  }

  lemma TimedInPrefix(calls: seq<Call>, more: seq<Call>, dir: Dir, i: int, timeout: int)
    requires TransferAt(calls, dir, i) && Timed(calls, dir, i, timeout)
    ensures TransferAt(calls + more, dir, i) && Timed(calls + more, dir, i, timeout)
  {
    var all := calls + more;
    assert all[..i] == calls[..i] && all[..i + 2] == calls[..i + 2] && all[..i - 1] == calls[..i - 1];
  }

  /**
    With a timeout, every transfer of any sequence of requests is timed: its deadline is counted from
    when it was asked for, and the next thing to happen is that it is cleared.
   */
  lemma {:induction false} EveryTransferIsTimed(t: Timeouts, requests: seq<Request>, dir: Dir, i: int)
    requires t.For(dir) != 0 && TransferAt(AllCalls(t, requests), dir, i)
    ensures Timed(AllCalls(t, requests), dir, i, t.For(dir))
  {
    var before := requests[..|requests| - 1];
    var calls, earlier := AllCalls(t, requests), AllCalls(t, before);
    if i < |earlier| {
      EveryTransferIsTimed(t, before, dir, i);
      TimedInPrefix(earlier, calls[|earlier|..], dir, i, t.For(dir));
      assert earlier + calls[|earlier|..] == calls;
    } else {
      BlockIsTimed(t, earlier, requests[|requests| - 1], dir, i - |earlier|);
    }
  }

  /** No call that sets or clears a deadline fails. */
  predicate SettersSucceed(calls: seq<Call>) {
    forall i :: 0 <= i < |calls| && (calls[i].Set? || calls[i].SetBoth?) ==> calls[i].ok
  }

  /** If no setter fails, every transfer runs under its own deadline and leaves none in force. */
  lemma OwnDeadline(t: Timeouts, requests: seq<Request>, dir: Dir, i: int)
    requires t.For(dir) != 0 && TransferAt(AllCalls(t, requests), dir, i)
    requires SettersSucceed(AllCalls(t, requests))
    ensures var calls := AllCalls(t, requests);
            && InForce(calls[..i], dir) == At(calls[i].now + t.For(dir))
            && i + 1 < |calls| && InForce(calls[..i + 2], dir) == Cleared
  {
    EveryTransferIsTimed(t, requests, dir, i);
  }

  /** The deadline the client itself last set, while the connection was there. */
  function Asked(requests: seq<Request>, dir: Dir): Deadline {
    if requests == [] then Cleared else
    var before := requests[..|requests| - 1];
    match requests[|requests| - 1]
    case AskSetBoth(d, ok) => if ok && !SomeCloses(before) then d else Asked(before, dir)
    case AskSet(way, d, ok) => if ok && !SomeCloses(before) && way == dir then d else Asked(before, dir)
    case _ => Asked(before, dir)
  }

  /** Without a timeout the wrapper never touches the deadline: what is in force is what the client set. */
  lemma {:induction false} WithoutTimeoutUntouched(t: Timeouts, requests: seq<Request>, dir: Dir)
    requires t.For(dir) == 0
    ensures InForce(AllCalls(t, requests), dir) == Asked(requests, dir)
  {
    if requests != [] {
      var before := requests[..|requests| - 1];
      WithoutTimeoutUntouched(t, before, dir);
      InForceConcat(AllCalls(t, before), CallsFor(t, requests[|requests| - 1]), dir);
      assert AllCalls(t, before) + [] == AllCalls(t, before);
    }
  }

  /** After the first successful close the inner connection is never touched again. */
  lemma {:induction false} NothingAfterClose(t: Timeouts, requests: seq<Request>, more: seq<Request>)
    requires SomeCloses(requests)
    ensures AllCalls(t, requests + more) == AllCalls(t, requests)
  {
    if more == [] {
      assert requests + more == requests;
    } else {
      var n := |more| - 1;
      assert (requests + more)[..|requests + more| - 1] == requests + more[..n];
      NothingAfterClose(t, requests, more[..n]);
      var i :| 0 <= i < |requests| && Closes(requests[i]);
      assert Closes((requests + more[..n])[i]);
    }
  }

  // ---- every request gets through ----

  function Select(calls: seq<Call>, keep: Call -> bool): seq<Call> {
    if calls == [] then [] else
    Select(calls[..|calls| - 1], keep) + if keep(calls[|calls| - 1]) then [calls[|calls| - 1]] else []
  }

  lemma {:induction false} SelectConcat(a: seq<Call>, b: seq<Call>, keep: Call -> bool)
    ensures Select(a + b, keep) == Select(a, keep) + Select(b, keep)
  {
    if b == [] {
      assert a + b == a;
    } else {
      var n := |b| - 1;
      assert (a + b)[..|a + b| - 1] == a + b[..n];
      assert (a + b)[|a + b| - 1] == b[n];
      SelectConcat(a, b[..n], keep);
    }
  }

  lemma SelectShort(a: Call, b: Call, c: Call, keep: Call -> bool)
    ensures Select([a], keep) == if keep(a) then [a] else []
    ensures Select([a, b, c], keep) ==
            (if keep(a) then [a] else []) + (if keep(b) then [b] else []) + (if keep(c) then [c] else [])
  {
    assert [a][..0] == [] && [a, b][..1] == [a] && [a, b, c][..2] == [a, b];
  }

  /** Everything but the deadlines of a single direction. */
  predicate NotSet(c: Call) {
    !c.Set?
  }

  predicate SetOf(c: Call, dir: Dir) {
    c.Set? && c.dir == dir
  }

  /** The connection was closed before request `i`. */
  predicate ClosedBefore(requests: seq<Request>, i: nat)
    requires i <= |requests|
  {
    exists k :: 0 <= k < i && requests[k] == AskClose(true)
  }

  /** What a request asks of the inner connection, deadlines of a single direction aside. */
  function AskOf(r: Request): seq<Call> {
    match r
    case AskTransfer(dir, now, _) => [Transfer(dir, now)]
    case AskClose(ok) => [Close(ok)]
    case AskAddress => [Address]
    case AskSetBoth(d, ok) => [SetBoth(d, ok)]
    case AskSet(_, _, _) => []
  }

  /** The deadlines a request leads to in one direction: its own, or two around a timed transfer. */
  function DeadlinesOf(timeout: int, r: Request, dir: Dir): seq<Call> {
    match r
    case AskTransfer(way, now, reports) =>
      if way == dir && timeout != 0 then
        [Set(dir, At(now + timeout), reports.armed), Set(dir, Cleared, reports.cleared)]
      else []
    case AskSet(way, d, ok) => if way == dir then [Set(dir, d, ok)] else []
    case _ => []
  }

  /** What was asked for up to the close. */
  function Asks(requests: seq<Request>): seq<Call> {
    if requests == [] then [] else
    var n := |requests| - 1;
    Asks(requests[..n]) + if ClosedBefore(requests, n) then [] else AskOf(requests[n])
  }

  function AskedDeadlines(timeout: int, requests: seq<Request>, dir: Dir): seq<Call> {
    if requests == [] then [] else
    var n := |requests| - 1;
    AskedDeadlines(timeout, requests[..n], dir) +
    if ClosedBefore(requests, n) then [] else DeadlinesOf(timeout, requests[n], dir)
  }

  lemma ClosedBeforeLast(requests: seq<Request>)
    requires requests != []
    ensures SomeCloses(requests[..|requests| - 1]) <==> ClosedBefore(requests, |requests| - 1)
  {
    var before := requests[..|requests| - 1];
    if ClosedBefore(requests, |before|) {
      var k :| 0 <= k < |before| && requests[k] == AskClose(true);
      assert Closes(before[k]);
    }
  }

  lemma BlockAsks(t: Timeouts, r: Request)
    ensures Select(CallsFor(t, r), NotSet) == AskOf(r)
  {
    var block := CallsFor(t, r);
    if |block| == 1 {
      SelectShort(block[0], block[0], block[0], NotSet);
    } else {
      SelectShort(block[0], block[1], block[2], NotSet);
    }
  }

  function SetsOf(dir: Dir): Call -> bool {
    c => SetOf(c, dir)
  }

  lemma BlockDeadlines(t: Timeouts, r: Request, dir: Dir)
    ensures Select(CallsFor(t, r), SetsOf(dir)) == DeadlinesOf(t.For(dir), r, dir)
  {
    var block := CallsFor(t, r);
    if |block| == 1 {
      SelectShort(block[0], block[0], block[0], SetsOf(dir));
    } else {
      SelectShort(block[0], block[1], block[2], SetsOf(dir));
    }
  }

  lemma SelectLast(t: Timeouts, requests: seq<Request>, keep: Call -> bool)
    requires requests != []
    ensures var n := |requests| - 1;
            Select(AllCalls(t, requests), keep) == Select(AllCalls(t, requests[..n]), keep) +
              if ClosedBefore(requests, n) then [] else Select(CallsFor(t, requests[n]), keep)
  {
    var n := |requests| - 1;
    ClosedBeforeLast(requests);
    SelectConcat(AllCalls(t, requests[..n]), CallsFor(t, requests[n]), keep);
    assert AllCalls(t, requests[..n]) + [] == AllCalls(t, requests[..n]);
  }

  /** For all timeouts, every request gets through to the inner connection, once and in order. */
  lemma {:induction false} EveryRequestGetsThrough(t: Timeouts, requests: seq<Request>)
    ensures Select(AllCalls(t, requests), NotSet) == Asks(requests)
  {
    if requests != [] {
      EveryRequestGetsThrough(t, requests[..|requests| - 1]);
      SelectLast(t, requests, NotSet);
      BlockAsks(t, requests[|requests| - 1]);
    }
  }

  /** And the deadline calls in one direction are exactly those asked for and those of its timeout. */
  lemma {:induction false} DeadlinesAsAsked(t: Timeouts, requests: seq<Request>, dir: Dir)
    ensures Select(AllCalls(t, requests), SetsOf(dir)) == AskedDeadlines(t.For(dir), requests, dir)
  {
    if requests != [] {
      DeadlinesAsAsked(t, requests[..|requests| - 1], dir);
      SelectLast(t, requests, SetsOf(dir));
      BlockDeadlines(t, requests[|requests| - 1], dir);
    }
  }

  // ---- the dialer ----

  /** What a network dial returns: a connection or nil, and whether there was no error. */
  datatype Dialled = Dialled(conn: Option<nat>, ok: bool)

  /** What the dialer hands on: the network's own result, or a wrapper around its connection. */
  datatype DialResult = AsDialled(dialled: Dialled) | Wrapped(conn: nat, timeouts: Timeouts)

  /** Dial and DialTimeout. A wrapper is put around exactly the good connections that have some timeout. */
  function Dial(t: Timeouts, dialled: Dialled): (r: DialResult)
    ensures r.Wrapped? <==> (exists dir :: t.For(dir) != 0) && dialled.ok && dialled.conn.Some?
    ensures if r.Wrapped? then r.timeouts == t && dialled.conn == Some(r.conn) else r.dialled == dialled
  {
    assert t.For(Reading) == t.read && t.For(Writing) == t.write;
    if t.read == 0 && t.write == 0 then AsDialled(dialled)
    else if !dialled.ok || dialled.conn.None? then AsDialled(dialled)
    else Wrapped(dialled.conn.value, t)
  }
}
