/** The TCP connection manager of the networking addon: a socket handle with
    its blocking mode, closing flag and timeouts, and the loops that add up
    partial sends and receives.

    Every operating-system call (socket, close, listen, bind, accept, connect,
    select, send, recv, fcntl, getsockopt, setsockopt, getpeername,
    getsockname) and every clock reading is an input of the method that makes
    it: the model states what the manager does with each possible answer. */
module TcpManager {
  import opened Util

  /** The constants of the manager's header, which is not part of this model;
      the values are those of the POSIX build. */
  const INVALID_SOCKET: int := -1
  const SOCKET_ERROR: int := -1
  const SOCKET_TIMEOUT: int := SOCKET_ERROR - 1
  const NO_TIMEOUT: int := 0xFFFF
  const DEFAULT_TIMEOUT: int := NO_TIMEOUT

  /** The error codes the manager tells apart after a failed call. */
  datatype NetError = NotSock | InProgress | OtherError

  /** What an accumulating loop returns. `Pending` means that the loop would
      make more calls than the script of answers supplies: it is a property
      of the script, never a value the manager returns. */
  datatype Outcome = Returned(value: int) | Pending

  /** One call of `Send`: what `select` and `send` answer. */
  datatype SendCall = SendCall(selected: int, sent: int)

  /** One call of `send` inside `SendAll`, with the clock read after it. */
  datatype Chunk = Chunk(sent: int, now: int)

  /** One call of `recv` inside `ReceiveAll`, with the two clock readings
      that follow it (deadline check, then ten-second ceiling). */
  datatype RecvCall = RecvCall(received: int, deadlineNow: int, ceilingNow: int)

  /** The longest a `ReceiveAll` may run, in milliseconds, whatever the timeout. */
  const RECEIVE_CEILING_MS: int := 10000

  // ---------------------------------------------------------------------
  // Specification functions

  /** What `Send` returns for the given answers of `select` and `send`. */
  function SendResult(handle: int, timeoutSend: int, c: SendCall): int
  {
    if handle == INVALID_SOCKET then SOCKET_ERROR
    else if timeoutSend != NO_TIMEOUT && c.selected == 0 then SOCKET_TIMEOUT
    else c.sent
  }

  /** The answers of successive `Send` calls. */
  function SendResults(handle: int, timeoutSend: int, calls: seq<SendCall>): (r: seq<int>)
    ensures |r| == |calls|
    ensures forall i :: 0 <= i < |calls| ==> r[i] == SendResult(handle, timeoutSend, calls[i])
  {
    seq(|calls|, i requires 0 <= i < |calls| => SendResult(handle, timeoutSend, calls[i]))
  }

  /** `Write` from the point where `sent` bytes have gone out, given what the
      remaining `Send` calls return. */
  function WriteFrom(size: int, results: seq<int>, sent: int): Outcome
    decreases |results|
  {
    if results == [] then Pending
    else if results[0] == SOCKET_ERROR then Returned(SOCKET_ERROR)
    else if results[0] == SOCKET_TIMEOUT then Returned(SOCKET_TIMEOUT)
    else if sent + results[0] < size then WriteFrom(size, results[1..], sent + results[0])
    else Returned(sent + results[0])
  }

  /** The chunk sizes `send` reported in a `SendAll` script. */
  function ChunkSizes(chunks: seq<Chunk>): (r: seq<int>)
    ensures |r| == |chunks|
    ensures forall i :: 0 <= i < |chunks| ==> r[i] == chunks[i].sent
  {
    seq(|chunks|, i requires 0 <= i < |chunks| => chunks[i].sent)
  }

  /** True when the clock reading `now` is past the deadline `timeout`
      seconds after `start` (milliseconds, unbounded arithmetic). */
  predicate PastDeadline(now: int, start: int, timeout: int)
  {
    now - start > timeout * 1000
  }

  /** The loop of `SendAll` once `total` bytes have gone out. */
  function SendAllFrom(size: int, timeout: int, start: int, chunks: seq<Chunk>, total: int): Outcome
    decreases |chunks|
  {
    if total >= size then Returned(total)
    else if chunks == [] then Pending
    else if chunks[0].sent == SOCKET_ERROR then Returned(SOCKET_ERROR)
    else if PastDeadline(chunks[0].now, start, timeout) then Returned(SOCKET_TIMEOUT)
    else SendAllFrom(size, timeout, start, chunks[1..], total + chunks[0].sent)
  }

  /** What `SendAll` returns. */
  function SendAllResult(handle: int, timeout: int, selected: int, start: int, size: int, chunks: seq<Chunk>): Outcome
  {
    if handle == INVALID_SOCKET then Returned(SOCKET_ERROR)
    else if timeout != NO_TIMEOUT && selected == 0 then Returned(SOCKET_TIMEOUT)
    else SendAllFrom(size, timeout, start, chunks, 0)
  }

  /** The byte counts `recv` reported in a `ReceiveAll` script. */
  function Received(calls: seq<RecvCall>): (r: seq<int>)
    ensures |r| == |calls|
    ensures forall i :: 0 <= i < |calls| ==> r[i] == calls[i].received
  {
    seq(|calls|, i requires 0 <= i < |calls| => calls[i].received)
  }

  /** What `ReceiveAll` returns when the peer closes before all bytes came. */
  function PrematureClose(timeoutReceive: int): int
  {
    if timeoutReceive != NO_TIMEOUT then SOCKET_ERROR else SOCKET_TIMEOUT
  }

  /** The loop of `ReceiveAll` once `total` bytes have arrived. */
  function ReceiveAllFrom(size: int, timeoutReceive: int, start: int, stamp: int, calls: seq<RecvCall>, total: int): Outcome
    decreases |calls|
  {
    if calls == [] then Pending
    else
      var c := calls[0];
      if c.received == 0 && total != size then Returned(PrematureClose(timeoutReceive))
      else if c.received < 0 then Returned(SOCKET_ERROR)
      else if PastDeadline(c.deadlineNow, start, timeoutReceive) then Returned(SOCKET_TIMEOUT)
      else if c.ceilingNow - stamp > RECEIVE_CEILING_MS then Returned(SOCKET_TIMEOUT)
      else if total + c.received < size then ReceiveAllFrom(size, timeoutReceive, start, stamp, calls[1..], total + c.received)
      else Returned(total + c.received)
  }

  /** The `select` wait, in seconds, that `Receive` and `ReceiveAll` use, or
      `None` when they do not wait: the wait is the SEND timeout although the
      test is on the receive timeout. */
  function ReceiveWait(handle: int, timeoutSend: int, timeoutReceive: int): Option<int>
  {
    if handle != INVALID_SOCKET && timeoutReceive != NO_TIMEOUT then Some(timeoutSend) else None
  }

  /** What `ReceiveAll` returns. */
  function ReceiveAllResult(handle: int, timeoutReceive: int, selected: int, start: int, stamp: int,
                            size: int, calls: seq<RecvCall>): Outcome
  {
    if handle == INVALID_SOCKET then Returned(SOCKET_ERROR)
    else if timeoutReceive != NO_TIMEOUT && selected == 0 then Returned(SOCKET_TIMEOUT)
    else ReceiveAllFrom(size, timeoutReceive, start, stamp, calls, 0)
  }

  /** What `Connect` returns once the handle is valid and the name resolved:
      `ret >= 0`, where `ret` is what `connect` answered or, when an
      in-progress connect waits, what `select` answered (raised to 1 when the
      socket reports no error). */
  function ConnectResult(connected: int, err: NetError, timeoutConnect: int, selected: int, soError: int): bool
  {
    var ret :=
      if connected < 0 && err == InProgress && timeoutConnect != NO_TIMEOUT then
        (if selected == 1 && soError == 0 then 1 else selected)
      else connected;
    ret >= 0
  }

  // ---------------------------------------------------------------------
  // Properties of the specification functions

  /** A non-empty prefix sums to its first element plus the rest. */
  lemma SumFront(s: seq<int>, m: nat)
    requires 1 <= m <= |s|
    ensures Sum(s[..m]) == s[0] + Sum(s[1..][..m - 1])
  {
    assert s[..m][1..] == s[1..][..m - 1];
  }

  /** `Write` finishes with the running total the first time the chunks
      reported by `Send` reach the requested size, provided no earlier call
      failed. */
  lemma {:induction false} WriteCompletes(size: int, results: seq<int>, sent: int, k: nat)
    requires k < |results|
    requires forall j :: 0 <= j <= k ==> results[j] != SOCKET_ERROR && results[j] != SOCKET_TIMEOUT
    requires forall m :: 1 <= m <= k ==> sent + Sum(results[..m]) < size
    requires sent + Sum(results[..k + 1]) >= size
    ensures WriteFrom(size, results, sent) == Returned(sent + Sum(results[..k + 1]))
  {
    SumFront(results, 1);
    SumFront(results, k + 1);
    if k > 0 {
      var rest := results[1..];
      assert sent + Sum(results[..1]) < size;
      forall m | 1 <= m <= k - 1
        ensures sent + results[0] + Sum(rest[..m]) < size
      {
        var m1 := m + 1;
        SumFront(results, m1);
        assert sent + Sum(results[..m1]) < size;
      }
      WriteCompletes(size, rest, sent + results[0], k - 1);
    }
  }

  /** `Write` passes on the first `SOCKET_ERROR` or `SOCKET_TIMEOUT` that
      `Send` returns before the requested size is reached. */
  lemma {:induction false} WritePropagatesFailure(size: int, results: seq<int>, sent: int, k: nat)
    requires k < |results|
    requires results[k] == SOCKET_ERROR || results[k] == SOCKET_TIMEOUT
    requires forall j :: 0 <= j < k ==> results[j] != SOCKET_ERROR && results[j] != SOCKET_TIMEOUT
    requires forall m :: 1 <= m <= k ==> sent + Sum(results[..m]) < size
    ensures WriteFrom(size, results, sent) == Returned(results[k])
  {
    if k > 0 {
      SumFront(results, 1);
      assert sent + Sum(results[..1]) < size;
      var rest := results[1..];
      forall m | 1 <= m <= k - 1
        ensures sent + results[0] + Sum(rest[..m]) < size
      {
        var m1 := m + 1;
        SumFront(results, m1);
        assert sent + Sum(results[..m1]) < size;
      }
      WritePropagatesFailure(size, rest, sent + results[0], k - 1);
    }
  }

  /** Whatever `Write` returns is an error code or a total of at least the
      requested size. */
  lemma {:induction false} WriteResultRange(size: int, results: seq<int>, sent: int)
    ensures WriteFrom(size, results, sent).Returned? ==>
      var v := WriteFrom(size, results, sent).value;
      v == SOCKET_ERROR || v == SOCKET_TIMEOUT || v >= size
  {
    if results != [] && results[0] != SOCKET_ERROR && results[0] != SOCKET_TIMEOUT && sent + results[0] < size {
      WriteResultRange(size, results[1..], sent + results[0]);
    }
  }

  /** On an invalid handle every `Send` fails, so `Write` returns
      `SOCKET_ERROR` at its first call. */
  lemma WriteOnInvalidHandle(size: int, timeout: int, calls: seq<SendCall>)
    requires calls != []
    ensures WriteFrom(size, SendResults(INVALID_SOCKET, timeout, calls), 0) == Returned(SOCKET_ERROR)
  {
  }

  /** A `SendAll` whose chunk completes the transfer after the deadline has
      passed still reports `SOCKET_TIMEOUT`: the deadline is checked after
      every chunk is added, before the loop condition. */
  lemma {:induction false} SendAllLateCompletion(size: int, timeout: int, start: int, chunks: seq<Chunk>, total: int, k: nat)
    requires k < |chunks|
    requires total < size
    requires forall j :: 0 <= j <= k ==> chunks[j].sent != SOCKET_ERROR
    requires forall j :: 0 <= j < k ==> !PastDeadline(chunks[j].now, start, timeout)
    requires forall m :: 1 <= m <= k ==> total + Sum(ChunkSizes(chunks)[..m]) < size
    requires PastDeadline(chunks[k].now, start, timeout)
    ensures SendAllFrom(size, timeout, start, chunks, total) == Returned(SOCKET_TIMEOUT)
  {
    if k > 0 {
      var sizes := ChunkSizes(chunks);
      var rest := chunks[1..];
      assert sizes[1..] == ChunkSizes(rest);
      SumFront(sizes, 1);
      assert total + Sum(sizes[..1]) < size;
      forall m | 1 <= m <= k - 1
        ensures total + chunks[0].sent + Sum(ChunkSizes(rest)[..m]) < size
      {
        var m1 := m + 1;
        SumFront(sizes, m1);
        assert total + Sum(sizes[..m1]) < size;
      }
      SendAllLateCompletion(size, timeout, start, rest, total + chunks[0].sent, k - 1);
    }
  }

  /** Whatever `SendAll`'s loop returns is an error code or a total of at
      least the requested size. */
  lemma {:induction false} SendAllResultRange(size: int, timeout: int, start: int, chunks: seq<Chunk>, total: int)
    ensures SendAllFrom(size, timeout, start, chunks, total).Returned? ==>
      var v := SendAllFrom(size, timeout, start, chunks, total).value;
      v == SOCKET_ERROR || v == SOCKET_TIMEOUT || v >= size
  {
    if total < size && chunks != [] && chunks[0].sent != SOCKET_ERROR && !PastDeadline(chunks[0].now, start, timeout) {
      SendAllResultRange(size, timeout, start, chunks[1..], total + chunks[0].sent);
    }
  }

  /** Predicate: the `SendAll` chunk `c`, sent with `total` bytes already
      out, neither fails nor passes the deadline, and the transfer was not
      complete before it. */
  predicate SendContinues(size: int, timeout: int, start: int, c: Chunk, total: int)
  {
    total < size && c.sent != SOCKET_ERROR && !PastDeadline(c.now, start, timeout)
  }

  /** A chunk that keeps the loop going hands the rest of the chunks on
      with its bytes added. */
  lemma SendStep(size: int, timeout: int, start: int, chunks: seq<Chunk>, total: int)
    requires chunks != [] && SendContinues(size, timeout, start, chunks[0], total)
    ensures SendAllFrom(size, timeout, start, chunks, total)
         == SendAllFrom(size, timeout, start, chunks[1..], total + chunks[0].sent)
  {
  }

  /** After `k` chunks that each kept the loop going, `SendAll` carries on
      from chunk `k` with those chunks added up. */
  lemma {:induction false} SendAllSkip(size: int, timeout: int, start: int, chunks: seq<Chunk>, total: int, k: nat)
    requires k <= |chunks|
    requires forall j :: 0 <= j < k ==>
      SendContinues(size, timeout, start, chunks[j], total + Sum(ChunkSizes(chunks)[..j]))
    ensures SendAllFrom(size, timeout, start, chunks, total)
         == SendAllFrom(size, timeout, start, chunks[k..], total + Sum(ChunkSizes(chunks)[..k]))
  {
    var sizes := ChunkSizes(chunks);
    if k > 0 {
      SendAllSkip(size, timeout, start, chunks, total, k - 1);
      assert chunks[k - 1..][0] == chunks[k - 1] && chunks[k - 1..][1..] == chunks[k..];
      SendStep(size, timeout, start, chunks[k - 1..], total + Sum(sizes[..k - 1]));
      SumSnoc(sizes, k - 1);
    } else {
      assert sizes[..0] == [] && chunks[0..] == chunks;
    }
  }

  /** A `SOCKET_ERROR` from `send` before the transfer completes is what
      `SendAll` returns. */
  lemma SendAllFailure(size: int, timeout: int, start: int, chunks: seq<Chunk>, total: int, k: nat)
    requires k < |chunks|
    requires forall j :: 0 <= j < k ==>
      SendContinues(size, timeout, start, chunks[j], total + Sum(ChunkSizes(chunks)[..j]))
    requires total + Sum(ChunkSizes(chunks)[..k]) < size
    requires chunks[k].sent == SOCKET_ERROR
    ensures SendAllFrom(size, timeout, start, chunks, total) == Returned(SOCKET_ERROR)
  {
    SendAllSkip(size, timeout, start, chunks, total, k);
    assert chunks[k..][0] == chunks[k];
  }

  /** `SendAll` returns the running total the first time the chunks reach
      the requested size, when the chunk that reaches it is in time. */
  lemma SendAllCompletes(size: int, timeout: int, start: int, chunks: seq<Chunk>, total: int, k: nat)
    requires k < |chunks|
    requires forall j :: 0 <= j < k ==>
      SendContinues(size, timeout, start, chunks[j], total + Sum(ChunkSizes(chunks)[..j]))
    requires SendContinues(size, timeout, start, chunks[k], total + Sum(ChunkSizes(chunks)[..k]))
    requires total + Sum(ChunkSizes(chunks)[..k + 1]) >= size
    ensures SendAllFrom(size, timeout, start, chunks, total) == Returned(total + Sum(ChunkSizes(chunks)[..k + 1]))
  {
    SendAllSkip(size, timeout, start, chunks, total, k);
    SumSnoc(ChunkSizes(chunks), k);
    assert chunks[k..][0] == chunks[k] && chunks[k..][1..] == chunks[k + 1..];
  }

  /** Predicate: the `ReceiveAll` call `c`, arriving with `total` bytes
      already received, neither returns nor completes the transfer. */
  predicate RecvContinues(size: int, timeoutReceive: int, start: int, stamp: int, c: RecvCall, total: int)
  {
    !(c.received == 0 && total != size) && c.received >= 0
    && !PastDeadline(c.deadlineNow, start, timeoutReceive)
    && c.ceilingNow - stamp <= RECEIVE_CEILING_MS
    && total + c.received < size
  }

  /** A call that keeps the loop going hands the rest of the calls on with
      its bytes added. */
  lemma RecvStep(size: int, timeoutReceive: int, start: int, stamp: int, calls: seq<RecvCall>, total: int)
    requires calls != [] && RecvContinues(size, timeoutReceive, start, stamp, calls[0], total)
    ensures ReceiveAllFrom(size, timeoutReceive, start, stamp, calls, total)
         == ReceiveAllFrom(size, timeoutReceive, start, stamp, calls[1..], total + calls[0].received)
  {
  }

  /** When the peer closes the connection (a zero-byte `recv`) after a run
      of calls that each kept the loop going, `ReceiveAll` returns
      `SOCKET_ERROR` if a receive timeout is set and `SOCKET_TIMEOUT` if not. */
  lemma ReceiveAllPrematureClose(size: int, timeoutReceive: int, start: int, stamp: int,
                                   calls: seq<RecvCall>, total: int, k: nat)
    requires k < |calls|
    requires forall j :: 0 <= j < k ==>
      RecvContinues(size, timeoutReceive, start, stamp, calls[j], total + Sum(Received(calls)[..j]))
    requires calls[k].received == 0
    requires total + Sum(Received(calls)[..k]) != size
    ensures ReceiveAllFrom(size, timeoutReceive, start, stamp, calls, total) == Returned(PrematureClose(timeoutReceive))
  {
    ReceiveAllSkip(size, timeoutReceive, start, stamp, calls, total, k);
    RecvClosed(size, timeoutReceive, start, stamp, calls[k..], total + Sum(Received(calls)[..k]));
  }

  /** A zero-byte call before the requested size is reached ends the loop
      with the premature-close code. */
  lemma RecvClosed(size: int, timeoutReceive: int, start: int, stamp: int, calls: seq<RecvCall>, total: int)
    requires calls != [] && calls[0].received == 0 && total != size
    ensures ReceiveAllFrom(size, timeoutReceive, start, stamp, calls, total) == Returned(PrematureClose(timeoutReceive))
  {
  }

  /** Whatever `ReceiveAll`'s loop returns is an error code or a total of at
      least the requested size (the ten-second ceiling is
      `ReceiveAllCeiling`'s). */
  lemma {:induction false} ReceiveAllResultRange(size: int, timeoutReceive: int, start: int, stamp: int,
                                                 calls: seq<RecvCall>, total: int)
    ensures ReceiveAllFrom(size, timeoutReceive, start, stamp, calls, total).Returned? ==>
      var v := ReceiveAllFrom(size, timeoutReceive, start, stamp, calls, total).value;
      v == SOCKET_ERROR || v == SOCKET_TIMEOUT || v >= size
  {
    if calls != [] && RecvContinues(size, timeoutReceive, start, stamp, calls[0], total) {
      ReceiveAllResultRange(size, timeoutReceive, start, stamp, calls[1..], total + calls[0].received);
    }
  }

  /** After a run of `k` calls that each kept the loop going, `ReceiveAll`
      carries on from call `k` with the bytes of those calls added up. */
  lemma {:induction false} ReceiveAllSkip(size: int, timeoutReceive: int, start: int, stamp: int,
                                          calls: seq<RecvCall>, total: int, k: nat)
    requires k <= |calls|
    requires forall j :: 0 <= j < k ==>
      RecvContinues(size, timeoutReceive, start, stamp, calls[j], total + Sum(Received(calls)[..j]))
    ensures ReceiveAllFrom(size, timeoutReceive, start, stamp, calls, total)
         == ReceiveAllFrom(size, timeoutReceive, start, stamp, calls[k..], total + Sum(Received(calls)[..k]))
  {
    var sizes := Received(calls);
    if k > 0 {
      ReceiveAllSkip(size, timeoutReceive, start, stamp, calls, total, k - 1);
      assert calls[k - 1..][0] == calls[k - 1] && calls[k - 1..][1..] == calls[k..];
      RecvStep(size, timeoutReceive, start, stamp, calls[k - 1..], total + Sum(sizes[..k - 1]));
      SumSnoc(sizes, k - 1);
    } else {
      assert sizes[..0] == [] && calls[0..] == calls;
    }
  }

  /** A negative `recv` after a run of calls that kept the loop going makes
      `ReceiveAll` return `SOCKET_ERROR`. */
  lemma ReceiveAllNegative(size: int, timeoutReceive: int, start: int, stamp: int,
                           calls: seq<RecvCall>, total: int, k: nat)
    requires k < |calls|
    requires forall j :: 0 <= j < k ==>
      RecvContinues(size, timeoutReceive, start, stamp, calls[j], total + Sum(Received(calls)[..j]))
    requires calls[k].received < 0
    ensures ReceiveAllFrom(size, timeoutReceive, start, stamp, calls, total) == Returned(SOCKET_ERROR)
  {
    ReceiveAllSkip(size, timeoutReceive, start, stamp, calls, total, k);
    assert calls[k..][0] == calls[k];
  }

  /** Once the reading after call `k` lies more than ten seconds past the
      stamp, `ReceiveAll` gives up with `SOCKET_TIMEOUT`, even when no receive
      timeout is set and bytes did arrive, provided that call neither closed,
      failed nor passed the deadline. */
  lemma ReceiveAllCeiling(size: int, timeoutReceive: int, start: int, stamp: int,
                          calls: seq<RecvCall>, total: int, k: nat)
    requires k < |calls|
    requires forall j :: 0 <= j < k ==>
      RecvContinues(size, timeoutReceive, start, stamp, calls[j], total + Sum(Received(calls)[..j]))
    requires calls[k].received > 0
    requires !PastDeadline(calls[k].deadlineNow, start, timeoutReceive)
    requires calls[k].ceilingNow - stamp > RECEIVE_CEILING_MS
    ensures ReceiveAllFrom(size, timeoutReceive, start, stamp, calls, total) == Returned(SOCKET_TIMEOUT)
  {
    ReceiveAllSkip(size, timeoutReceive, start, stamp, calls, total, k);
    assert calls[k..][0] == calls[k];
  }

  /** `ReceiveAll` returns the running total the first time it reaches the
      requested size, when the call that reaches it is in time on both clocks. */
  lemma ReceiveAllCompletes(size: int, timeoutReceive: int, start: int, stamp: int,
                            calls: seq<RecvCall>, total: int, k: nat)
    requires k < |calls|
    requires forall j :: 0 <= j < k ==>
      RecvContinues(size, timeoutReceive, start, stamp, calls[j], total + Sum(Received(calls)[..j]))
    requires calls[k].received > 0
    requires !PastDeadline(calls[k].deadlineNow, start, timeoutReceive)
    requires calls[k].ceilingNow - stamp <= RECEIVE_CEILING_MS
    requires total + Sum(Received(calls)[..k + 1]) >= size
    ensures ReceiveAllFrom(size, timeoutReceive, start, stamp, calls, total)
         == Returned(total + Sum(Received(calls)[..k + 1]))
  {
    var t := total + Sum(Received(calls)[..k]);
    ReceiveAllSkip(size, timeoutReceive, start, stamp, calls, total, k);
    SumSnoc(Received(calls), k);
    RecvFinish(size, timeoutReceive, start, stamp, calls[k..], t);
  }

  /** A call that brings the total up to the requested size in time ends
      the loop with that total. */
  lemma RecvFinish(size: int, timeoutReceive: int, start: int, stamp: int, calls: seq<RecvCall>, total: int)
    requires calls != [] && calls[0].received > 0
    requires !PastDeadline(calls[0].deadlineNow, start, timeoutReceive)
    requires calls[0].ceilingNow - stamp <= RECEIVE_CEILING_MS
    requires total + calls[0].received >= size
    ensures ReceiveAllFrom(size, timeoutReceive, start, stamp, calls, total) == Returned(total + calls[0].received)
  {
  }

  /** An in-progress connect whose wait times out (`select` answers 0) is
      reported as a success when a connect timeout is set, and as a failure
      when none is set, because the wait is skipped and `connect`'s negative
      answer stands. */
  lemma ConnectTimeoutCases(connected: int, timeoutConnect: int, soError: int)
    requires connected < 0
    ensures timeoutConnect != NO_TIMEOUT ==> ConnectResult(connected, InProgress, timeoutConnect, 0, soError)
    ensures timeoutConnect == NO_TIMEOUT ==> !ConnectResult(connected, InProgress, timeoutConnect, 0, soError)
  {
  }

  /** An in-progress connect whose wait answers 1 while the socket reports
      an error is still reported as a success: the error check only raises
      `ret` to the 1 it already holds. */
  lemma ConnectSelectErrorReported(connected: int, timeoutConnect: int, soError: int)
    requires connected < 0 && timeoutConnect != NO_TIMEOUT && soError != 0
    ensures ConnectResult(connected, InProgress, timeoutConnect, 1, soError)
  {
  }

  /** `Connect`'s answer as its error check evidently means it: a waited-for
      connect succeeds only when `select` answers 1 and the socket reports
      no error. */
  function ConnectResultChecked(connected: int, err: NetError, timeoutConnect: int, selected: int, soError: int): (ok: bool)
    ensures ok && connected < 0 && err == InProgress && timeoutConnect != NO_TIMEOUT ==> selected == 1 && soError == 0
  {
    if connected < 0 && err == InProgress && timeoutConnect != NO_TIMEOUT then
      selected == 1 && soError == 0
    else connected >= 0
  }

  /** The corrected answer and the one as written agree except on a wait
      that times out or ends in a socket error, which only the corrected
      one reports as a failure. */
  lemma ConnectCheckedAgrees(connected: int, err: NetError, timeoutConnect: int, selected: int, soError: int)
    ensures ConnectResultChecked(connected, err, timeoutConnect, selected, soError) ==>
      ConnectResult(connected, err, timeoutConnect, selected, soError)
    ensures (ConnectResult(connected, err, timeoutConnect, selected, soError) &&
             !ConnectResultChecked(connected, err, timeoutConnect, selected, soError)) <==>
      connected < 0 && err == InProgress && timeoutConnect != NO_TIMEOUT &&
      (selected == 0 || (selected == 1 && soError != 0) || selected > 1)
  {
  }

  /** A connect that fails for any reason other than "in progress" is
      reported as a failure, whatever the timeout. */
  lemma ConnectImmediateFailure(connected: int, err: NetError, timeoutConnect: int, selected: int, soError: int)
    requires connected < 0 && err != InProgress
    ensures !ConnectResult(connected, err, timeoutConnect, selected, soError)
  {
  }

  // ---------------------------------------------------------------------
  // The manager

  class Manager {
    var handle: int
    var nonBlocking: bool
    var closing: bool
    var maxConnections: int
    var listenPort: int
    var timeoutSend: int
    var timeoutReceive: int
    var timeoutAccept: int
    var timeoutConnect: int

    /** A fresh manager: no socket, blocking, default timeouts, and a
        five-second connect timeout. */
    constructor ()
      ensures handle == INVALID_SOCKET && !nonBlocking && !closing
      ensures timeoutSend == DEFAULT_TIMEOUT && timeoutReceive == DEFAULT_TIMEOUT
      ensures timeoutAccept == DEFAULT_TIMEOUT && timeoutConnect == 5
      ensures listenPort == -1 && maxConnections == 100
    {
      nonBlocking := false;
      handle := INVALID_SOCKET;
      timeoutSend := DEFAULT_TIMEOUT;
      timeoutReceive := DEFAULT_TIMEOUT;
      timeoutAccept := DEFAULT_TIMEOUT;
      timeoutConnect := 5;
      listenPort := -1;
      closing := false;
      maxConnections := 100;
    }

    /** Closes the socket. `closeFailed` and `err` are the answer of `close`.
        Closing no socket succeeds and changes nothing; a failure other than
        "not a socket" keeps the handle. */
    method Close(closeFailed: bool, err: NetError) returns (ok: bool)
      modifies this`handle, this`closing
      ensures old(handle) == INVALID_SOCKET ==> ok && handle == INVALID_SOCKET && closing == old(closing)
      ensures old(handle) != INVALID_SOCKET ==>
        closing && ok == (!closeFailed || err == NotSock)
        && handle == (if ok then INVALID_SOCKET else old(handle))
    {
      if handle == INVALID_SOCKET { return true; }
      closing := true;
      if closeFailed && err != NotSock { return false; }
      handle := INVALID_SOCKET;
      ok := true;
    }

    /** Opens a socket; `created` is the answer of `socket`. */
    method Create(created: int) returns (ok: bool)
      modifies this`handle, this`closing
      ensures old(handle) != INVALID_SOCKET ==> !ok && handle == old(handle) && closing == old(closing)
      ensures old(handle) == INVALID_SOCKET ==> !closing && handle == created && ok == (created != INVALID_SOCKET)
    {
      if handle != INVALID_SOCKET { return false; }
      closing := false;
      handle := created;
      ok := handle != INVALID_SOCKET;
    }

    /** Starts listening; `listened` is the answer of `listen`. */
    method Listen(connections: int, listened: int) returns (ok: bool)
      modifies this`maxConnections
      ensures old(handle) == INVALID_SOCKET ==> !ok && maxConnections == old(maxConnections)
      ensures handle != INVALID_SOCKET ==>
        maxConnections == connections && GetMaxConnections() == connections && ok == (listened != SOCKET_ERROR)
    {
      if handle == INVALID_SOCKET { return false; }
      maxConnections := connections;
      ok := listened != SOCKET_ERROR;
    }

    /** Binds to a port; `bound` is the answer of `bind`. There is no check of
        the handle: an invalid one is left to `bind` to refuse. */
    method Bind(port: int, bound: int) returns (ok: bool)
      ensures ok <==> bound == 0
    {
      ok := bound == 0;
    }

    /** Accepts a connection into `conn`; `selected` is the answer of the
        readiness wait and `accepted` the answer of `accept`. */
    method Accept(conn: Manager, selected: int, accepted: int) returns (ok: bool)
      modifies conn`handle
      ensures conn != this ==> handle == old(handle)
      ensures old(handle) == INVALID_SOCKET || (timeoutAccept != NO_TIMEOUT && selected == 0) ==>
        !ok && conn.handle == old(conn.handle)
      ensures old(handle) != INVALID_SOCKET && !(timeoutAccept != NO_TIMEOUT && selected == 0) ==>
        conn.handle == accepted && ok == (accepted != INVALID_SOCKET)
    {
      if handle == INVALID_SOCKET { return false; }
      if timeoutAccept != NO_TIMEOUT && selected == 0 { return false; }
      conn.handle := accepted;
      ok := conn.handle != INVALID_SOCKET;
    }

    /** Switches the blocking mode; `changed` is the answer of `fcntl`. */
    method SetNonBlocking(useNonBlocking: bool, changed: int) returns (ok: bool)
      modifies this`nonBlocking
      ensures useNonBlocking == old(nonBlocking) ==> ok && nonBlocking == old(nonBlocking)
      ensures useNonBlocking != old(nonBlocking) ==>
        ok == (changed >= 0) && nonBlocking == (if ok then useNonBlocking else old(nonBlocking))
      ensures ok <==> IsNonBlocking() == useNonBlocking
    {
      if useNonBlocking == nonBlocking { return true; }
      var prev := nonBlocking;
      nonBlocking := useNonBlocking;
      ok := changed >= 0;
      if !ok { nonBlocking := prev; }
    }

    function IsNonBlocking(): bool
      reads this
    {
      nonBlocking
    }

    /** Connects to a resolved address. `resolved` says whether the name
        lookup succeeded; `forced` and `restored` are the answers of `fcntl`
        when the mode is forced to non-blocking and set back; `connected`,
        `err`, `selected` and `soError` are the answers of `connect`, the
        error check, `select` and the socket-error query. */
    method Connect(resolved: bool, forced: int, connected: int, err: NetError,
                   selected: int, soError: int, restored: int) returns (ok: bool)
      modifies this`nonBlocking
      ensures old(handle) == INVALID_SOCKET || !resolved ==> !ok && nonBlocking == old(nonBlocking)
      ensures old(handle) != INVALID_SOCKET && resolved ==>
        ok == ConnectResult(connected, err, timeoutConnect, selected, soError)
      ensures restored >= 0 ==> nonBlocking == old(nonBlocking)
      ensures nonBlocking == old(nonBlocking) || (forced >= 0 && restored < 0)
    {
      if handle == INVALID_SOCKET { return false; }
      if !resolved { return false; }
      var wasNonBlocking := nonBlocking;
      var _ := SetNonBlocking(true, forced);
      var ret := connected;
      if ret < 0 && err == InProgress && timeoutConnect != NO_TIMEOUT {
        ret := selected;
        if ret == 1 && soError == 0 {
          ret := 1;
        }
      }
      var _ := SetNonBlocking(wasNonBlocking, restored);
      ok := ret >= 0;
    }

    /** Sends once; `c` holds the answers of `select` and `send`. */
    method Send(c: SendCall) returns (r: int)
      ensures r == SendResult(handle, timeoutSend, c)
      ensures handle == INVALID_SOCKET ==> r == SOCKET_ERROR
    {
      if handle == INVALID_SOCKET { return SOCKET_ERROR; }
      if timeoutSend != NO_TIMEOUT && c.selected == 0 { return SOCKET_TIMEOUT; }
      r := c.sent;
    }

    /** Sends `size` bytes by repeated `Send` calls, one per entry of
        `calls`, until the total reaches `size`. */
    method Write(size: int, calls: seq<SendCall>) returns (r: Outcome)
      ensures r == WriteFrom(size, SendResults(handle, timeoutSend, calls), 0)
    {
      ghost var results := SendResults(handle, timeoutSend, calls);
      var sent := 0;
      var i := 0;
      while i < |calls|
        invariant 0 <= i <= |calls|
        invariant WriteFrom(size, results, 0) == WriteFrom(size, results[i..], sent)
      {
        assert results[i..][0] == results[i] && results[i..][1..] == results[i + 1..];
        var t := Send(calls[i]);
        if t == SOCKET_ERROR { return Returned(SOCKET_ERROR); }
        if t == SOCKET_TIMEOUT { return Returned(SOCKET_TIMEOUT); }
        sent := sent + t;
        i := i + 1;
        if !(sent < size) { return Returned(sent); }
      }
      r := Pending;
    }

    /** Sends `size` bytes with a single readiness wait and a deadline of
        `timeoutSend` seconds from `start`. */
    method SendAll(size: int, selected: int, start: int, chunks: seq<Chunk>) returns (r: Outcome)
      ensures r == SendAllResult(handle, timeoutSend, selected, start, size, chunks)
    {
      if handle == INVALID_SOCKET { return Returned(SOCKET_ERROR); }
      if timeoutSend != NO_TIMEOUT && selected == 0 { return Returned(SOCKET_TIMEOUT); }
      var total := 0;
      var bytesLeft := size;
      var i := 0;
      while total < size
        invariant 0 <= i <= |chunks|
        invariant bytesLeft == size - total
        invariant SendAllFrom(size, timeoutSend, start, chunks, 0)
               == SendAllFrom(size, timeoutSend, start, chunks[i..], total)
        decreases |chunks| - i
      {
        if i == |chunks| { return Pending; }
        assert chunks[i..][0] == chunks[i] && chunks[i..][1..] == chunks[i + 1..];
        var ret := chunks[i].sent;
        if ret == SOCKET_ERROR { return Returned(SOCKET_ERROR); }
        total := total + ret;
        bytesLeft := bytesLeft - ret;
        if PastDeadline(chunks[i].now, start, timeoutSend) { return Returned(SOCKET_TIMEOUT); }
        i := i + 1;
      }
      r := Returned(total);
    }

    /** Receives once; `selected` and `received` are the answers of `select`
        and `recv`. `wait` is the timeout handed to `select`, if it is called. */
    method Receive(selected: int, received: int) returns (r: int, wait: Option<int>)
      ensures wait == ReceiveWait(handle, timeoutSend, timeoutReceive)
      ensures handle == INVALID_SOCKET ==> r == SOCKET_ERROR
      ensures handle != INVALID_SOCKET ==>
        r == if timeoutReceive != NO_TIMEOUT && selected == 0 then SOCKET_TIMEOUT else received
    {
      if handle == INVALID_SOCKET { return SOCKET_ERROR, None; }
      wait := None;
      if timeoutReceive != NO_TIMEOUT {
        wait := Some(timeoutSend);
        if selected == 0 { return SOCKET_TIMEOUT, wait; }
      }
      r := received;
    }

    /** Reads without consuming; `received` is the answer of `recv`. There is
        no readiness wait. */
    method PeekReceive(received: int) returns (r: int)
      ensures r == if handle == INVALID_SOCKET then SOCKET_ERROR else received
    {
      if handle == INVALID_SOCKET { return SOCKET_ERROR; }
      r := received;
    }

    /** Receives `size` bytes with a single readiness wait, a deadline of
        `timeoutReceive` seconds from `start` and a ten-second ceiling from
        `stamp`. */
    method ReceiveAll(size: int, selected: int, start: int, stamp: int, calls: seq<RecvCall>)
      returns (r: Outcome, wait: Option<int>)
      ensures wait == ReceiveWait(handle, timeoutSend, timeoutReceive)
      ensures r == ReceiveAllResult(handle, timeoutReceive, selected, start, stamp, size, calls)
    {
      if handle == INVALID_SOCKET { return Returned(SOCKET_ERROR), None; }
      wait := None;
      if timeoutReceive != NO_TIMEOUT {
        wait := Some(timeoutSend);
        if selected == 0 { return Returned(SOCKET_TIMEOUT), wait; }
      }
      var total := 0;
      var i := 0;
      while i < |calls|
        invariant 0 <= i <= |calls|
        invariant ReceiveAllFrom(size, timeoutReceive, start, stamp, calls, 0)
               == ReceiveAllFrom(size, timeoutReceive, start, stamp, calls[i..], total)
      {
        assert calls[i..][0] == calls[i] && calls[i..][1..] == calls[i + 1..];
        var ret := calls[i].received;
        if ret == 0 && total != size {
          r := Returned(if timeoutReceive != NO_TIMEOUT then SOCKET_ERROR else SOCKET_TIMEOUT);
          return;
        }
        if ret < 0 { return Returned(SOCKET_ERROR), wait; }
        if PastDeadline(calls[i].deadlineNow, start, timeoutReceive) { return Returned(SOCKET_TIMEOUT), wait; }
        total := total + ret;
        if calls[i].ceilingNow - stamp > RECEIVE_CEILING_MS { return Returned(SOCKET_TIMEOUT), wait; }
        i := i + 1;
        if !(total < size) { return Returned(total), wait; }
      }
      r := Pending;
    }

    /** Asks for the peer's address; `answered` is the answer of `getpeername`. */
    method GetRemoteAddr(answered: int) returns (ok: bool)
      ensures ok <==> handle != INVALID_SOCKET && answered != SOCKET_ERROR
    {
      if handle == INVALID_SOCKET { return false; }
      ok := answered != SOCKET_ERROR;
    }

    /** Asks for the local address; `answered` is the answer of `getsockname`. */
    method GetInetAddr(answered: int) returns (ok: bool)
      ensures ok <==> handle != INVALID_SOCKET && answered != SOCKET_ERROR
    {
      if handle == INVALID_SOCKET { return false; }
      ok := answered != SOCKET_ERROR;
    }

    method SetTimeoutConnect(seconds: int)
      modifies this`timeoutConnect
      ensures timeoutConnect == seconds && GetTimeoutConnect() == seconds
    {
      timeoutConnect := seconds;
    }

    method SetTimeoutSend(seconds: int)
      modifies this`timeoutSend
      ensures timeoutSend == seconds && GetTimeoutSend() == seconds
    {
      timeoutSend := seconds;
    }

    method SetTimeoutReceive(seconds: int)
      modifies this`timeoutReceive
      ensures timeoutReceive == seconds && GetTimeoutReceive() == seconds
    {
      timeoutReceive := seconds;
    }

    method SetTimeoutAccept(seconds: int)
      modifies this`timeoutAccept
      ensures timeoutAccept == seconds && GetTimeoutAccept() == seconds
    {
      timeoutAccept := seconds;
    }

    function GetTimeoutConnect(): int reads this { timeoutConnect }
    function GetTimeoutSend(): int reads this { timeoutSend }
    function GetTimeoutReceive(): int reads this { timeoutReceive }
    function GetTimeoutAccept(): int reads this { timeoutAccept }
    function GetMaxConnections(): int reads this { maxConnections }

    /** Reads a buffer size; `queried` and `reported` are the answer of
        `getsockopt` and the value it writes. An invalid handle gives 0
        (`false` in the source), and so does a failed query, which leaves the
        zero-initialised buffer untouched. */
    method GetReceiveBufferSize(queried: int, reported: int) returns (n: int)
      ensures handle == INVALID_SOCKET || queried == -1 ==> n == 0
      ensures handle != INVALID_SOCKET && queried != -1 ==> n == reported
    {
      if handle == INVALID_SOCKET { return 0; }
      n := if queried == -1 then 0 else reported;
    }

    /** Sets a buffer size; `answered` is the answer of `setsockopt`. */
    method SetReceiveBufferSize(bytes: int, answered: int) returns (ok: bool)
      ensures ok <==> handle != INVALID_SOCKET && answered == 0
    {
      if handle == INVALID_SOCKET { return false; }
      ok := answered == 0;
    }

    /** As `GetReceiveBufferSize`, for the send buffer. */
    method GetSendBufferSize(queried: int, reported: int) returns (n: int)
      ensures handle == INVALID_SOCKET || queried == -1 ==> n == 0
      ensures handle != INVALID_SOCKET && queried != -1 ==> n == reported
    {
      if handle == INVALID_SOCKET { return 0; }
      n := if queried == -1 then 0 else reported;
    }

    /** As `SetReceiveBufferSize`, for the send buffer. */
    method SetSendBufferSize(bytes: int, answered: int) returns (ok: bool)
      ensures ok <==> handle != INVALID_SOCKET && answered == 0
    {
      if handle == INVALID_SOCKET { return false; }
      ok := answered == 0;
    }
  }
}
