/**
 * The byte accounting of the network helpers: the chunked TCP send loop and
 * the receive loop shared by the TCP and UDP receivers. Sockets are not
 * modelled; each send or recv call is answered from an oracle sequence.
 */
module Transport {
  import opened Wrappers

  /** The largest number of bytes one send call is asked to transmit. */
  const ChunkSize: nat := 1024

  /**
   * What one send or recv call returns when asked for `len` bytes and the
   * other side would take or give `offer` bytes: -1 for a negative offer
   * (an error), otherwise never more than was asked for.
   */
  function CallReturn(offer: int, len: nat): (n: int)
    ensures n == -1 || 0 <= n <= len
    ensures offer < 0 <==> n == -1
    ensures 0 <= offer <= len ==> n == offer
  {
    if offer < 0 then -1 else if offer < len then offer else len
  }

  /** How a helper ends: with a status code, or still inside a call when the oracle runs out. */
  datatype Outcome = Returned(status: int) | Blocked

  // ---------------------------------------------------------------------------
  // Sending

  /** The length the send loop asks for: a full chunk, or what is left. */
  function ChunkLen(size: int, total: int): (len: nat)
    requires total < size
    ensures 0 < len <= ChunkSize && len <= size - total
    ensures len == ChunkSize || len == size - total
  {
    if size - total > ChunkSize then ChunkSize else size - total
  }

  /**
   * One run of the send loop: the length passed to each send call, the
   * final byte count, and whether the loop ended (false: the oracle ran out).
   */
  datatype SendRun = SendRun(requests: seq<nat>, total: int, ended: bool)

  /** The send loop from byte count `total`, answered by `offers`. */
  function SendFrom(size: int, total: int, offers: seq<int>): (run: SendRun)
    decreases |offers|
  {
    if total >= size then SendRun([], total, true)
    else if offers == [] then SendRun([], total, false)
    else
      var len := ChunkLen(size, total);
      var n := CallReturn(offers[0], len);
      if n == -1 then SendRun([len], total, true)
      else
        var rest := SendFrom(size, total + n, offers[1..]);
        SendRun([len] + rest.requests, rest.total, rest.ended)
  }

  /** A run preceded by `done` earlier requests. */
  function After(done: seq<nat>, run: SendRun): (r: SendRun) {
    SendRun(done + run.requests, run.total, run.ended)
  }

  /**
   * net_tcp_sender: after a failed socket or connect call (`setupError`
   * holds its errno) nothing is sent; otherwise send in chunks of at most
   * 1024 bytes until `size` bytes are counted or a call returns -1. The
   * status is 0 when exactly `size` bytes were counted and the errno of the
   * failed call (`sendErrno`) otherwise.
   */
  method TcpSend(setupError: Option<int>, size: int, offers: seq<int>, sendErrno: int)
    returns (outcome: Outcome, requests: seq<nat>, total: int)
    ensures setupError.Some? ==> outcome == Returned(setupError.value) && requests == [] && total == 0
    ensures setupError.None? ==> SendRun(requests, total, outcome.Returned?) == SendFrom(size, 0, offers)
    ensures setupError.None? && outcome.Returned? ==>
      outcome.status == if total == size then 0 else sendErrno
  {
    requests, total := [], 0;
    if setupError.Some? {
      return Returned(setupError.value), requests, total;
    }
    var k := 0;
    var ended := true;
    while total < size
      invariant 0 <= k <= |offers|
      invariant SendFrom(size, 0, offers) == After(requests, SendFrom(size, total, offers[k..]))
      decreases |offers| - k
    {
      if k == |offers| {
        ended := false;
        break;
      }
      var len := ChunkLen(size, total);
      var n := CallReturn(offers[k], len);
      assert offers[k..][1..] == offers[k + 1..];
      if n == -1 {
        requests := requests + [len];
        break;
      }
      requests := requests + [len];
      total := total + n;
      k := k + 1;
    }
    outcome := if !ended then Blocked else Returned(if total == size then 0 else sendErrno);
  }

  /**
   * Every send call is asked for between 1 and 1024 bytes, and never for more
   * than is still unsent; at most one call is made per oracle answer.
   */
  lemma {:induction false} SendRequestsBounded(size: int, total: int, offers: seq<int>)
    ensures |SendFrom(size, total, offers).requests| <= |offers|
    ensures forall k :: 0 <= k < |SendFrom(size, total, offers).requests| ==>
      0 < SendFrom(size, total, offers).requests[k] <= ChunkSize
    ensures total < size && offers != [] ==>
      SendFrom(size, total, offers).requests[0] == if size - total > ChunkSize then ChunkSize else size - total
    decreases |offers|
  {
    if total < size && offers != [] {
      var n := CallReturn(offers[0], ChunkLen(size, total));
      if n != -1 {
        SendRequestsBounded(size, total + n, offers[1..]);
      }
    }
  }

  /** The count only grows and never passes `size`. */
  lemma {:induction false} SendNeverOvershoots(size: int, total: int, offers: seq<int>)
    requires total <= size
    ensures total <= SendFrom(size, total, offers).total <= size
    decreases |offers|
  {
    if total < size && offers != [] {
      var n := CallReturn(offers[0], ChunkLen(size, total));
      if n != -1 {
        SendNeverOvershoots(size, total + n, offers[1..]);
      }
    }
  }

  /**
   * The loop ends only when the count has reached `size` or the last call
   * made returned -1; for a non-negative size the count then equals `size`
   * exactly when no call failed.
   */
  lemma {:induction false} SendEndsAtSizeOrError(size: int, total: int, offers: seq<int>)
    requires total <= size
    ensures |SendFrom(size, total, offers).requests| <= |offers|
    ensures var run := SendFrom(size, total, offers);
      run.ended ==>
        (run.total == size <==> forall k :: 0 <= k < |run.requests| ==> offers[k] >= 0)
    ensures var run := SendFrom(size, total, offers);
      run.ended && run.total != size ==> 0 < |run.requests| && offers[|run.requests| - 1] < 0
    decreases |offers|
  {
    SendRequestsBounded(size, total, offers);
    if total < size && offers != [] {
      var len := ChunkLen(size, total);
      var n := CallReturn(offers[0], len);
      if n != -1 {
        var rest := SendFrom(size, total + n, offers[1..]);
        SendEndsAtSizeOrError(size, total + n, offers[1..]);
        SendRequestsBounded(size, total + n, offers[1..]);
        var run := SendFrom(size, total, offers);
        assert run.requests == [len] + rest.requests;
        if rest.ended && rest.total == size {
          forall k | 0 <= k < |run.requests| ensures offers[k] >= 0 {
            if k > 0 {
              assert offers[k] == offers[1..][k - 1];
            }
          }
        }
        if run.ended && forall k :: 0 <= k < |run.requests| ==> offers[k] >= 0 {
          forall k | 0 <= k < |rest.requests| ensures offers[1..][k] >= 0 {
            assert offers[1..][k] == offers[k + 1];
          }
        }
      }
    }
  }

  /** The number of chunks needed for `size` bytes. */
  function ChunksFor(size: nat): (n: nat) {
    (size + ChunkSize - 1) / ChunkSize
  }

  /**
   * A peer that takes every chunk in full: `size` bytes go out in
   * ChunksFor(size) calls, and the loop ends with the count equal to `size`.
   */
  lemma {:induction false} SendAllAccepted(size: nat, total: nat, offers: seq<int>)
    requires total <= size
    requires |offers| >= ChunksFor(size - total)
    requires forall k :: 0 <= k < |offers| ==> offers[k] >= ChunkSize
    ensures SendFrom(size, total, offers).ended
    ensures SendFrom(size, total, offers).total == size
    ensures |SendFrom(size, total, offers).requests| == ChunksFor(size - total)
    ensures Sum(SendFrom(size, total, offers).requests) == size - total
    decreases size - total
  {
    if total < size {
      var len := ChunkLen(size, total);
      assert CallReturn(offers[0], len) == len;
      assert ChunksFor(size - total) == 1 + ChunksFor(size - (total + len));
      SendAllAccepted(size, total + len, offers[1..]);
      var rest := SendFrom(size, total + len, offers[1..]);
      assert ([len] + rest.requests)[1..] == rest.requests;
    }
  }

  /**
   * Both ends of a complete transfer: when the peer takes every chunk in
   * full, the sender reports status 0, and a receiver whose recv calls
   * deliver exactly the chunks that were sent counts `size` bytes and
   * reports status 0 as well.
   */
  lemma {:induction false} SendThenReceive(size: nat, offers: seq<int>)
    requires |offers| >= ChunksFor(size)
    requires forall k :: 0 <= k < |offers| ==> offers[k] >= ChunkSize
    ensures var sent := SendFrom(size, 0, offers);
      && sent.ended && sent.total == size
      && RecvFrom(size, 0, sent.requests) == RecvRun(|sent.requests|, size, true)
  {
    SendAllAccepted(size, 0, offers);
    var sent := SendFrom(size, 0, offers);
    SendRequestsBounded(size, 0, offers);
    ReceivesExactChunks(size, 0, sent.requests);
  }

  // ---------------------------------------------------------------------------
  // Receiving, as written

  /**
   * One run of a receive loop: the number of recv calls made, the final byte
   * count, and whether the loop ended (false: the oracle ran out).
   */
  datatype RecvRun = RecvRun(calls: nat, received: int, ended: bool)

  /**
   * The receive loop of both receivers from count `received`: every call asks
   * for `size` bytes, and its result is added to the count before a result
   * of 0 or less stops the loop.
   */
  function RecvFrom(size: int, received: int, offers: seq<int>): (run: RecvRun)
    requires 0 <= received
    decreases |offers|
  {
    if received >= size then RecvRun(0, received, true)
    else if offers == [] then RecvRun(0, received, false)
    else
      var n := CallReturn(offers[0], size);
      if n <= 0 then RecvRun(1, received + n, true)
      else
        var rest := RecvFrom(size, received + n, offers[1..]);
        RecvRun(1 + rest.calls, rest.received, rest.ended)
  }

  /**
   * net_tcp_receiver and net_udp_receiver: after a failed setup call
   * (`setupError` holds its errno) the count is never written; otherwise the
   * count starts at 0, recv is called until the count reaches `size` or a
   * call returns 0 or less, and the status is 0.
   */
  method Receive(setupError: Option<int>, size: int, offers: seq<int>)
    returns (outcome: Outcome, bytesReceived: Option<int>)
    ensures setupError.Some? ==> outcome == Returned(setupError.value) && bytesReceived == None
    ensures setupError.None? ==>
      (var run := RecvFrom(size, 0, offers);
       && bytesReceived == Some(run.received)
       && outcome == (if run.ended then Returned(0) else Blocked))
  {
    if setupError.Some? {
      return Returned(setupError.value), None;
    }
    var received := 0;
    var k := 0;
    var ended := true;
    while received < size
      invariant 0 <= k <= |offers|
      invariant 0 <= received
      invariant RecvFrom(size, 0, offers).received == RecvFrom(size, received, offers[k..]).received
      invariant RecvFrom(size, 0, offers).ended == RecvFrom(size, received, offers[k..]).ended
      decreases |offers| - k
    {
      if k == |offers| {
        ended := false;
        break;
      }
      var n := CallReturn(offers[k], size);
      assert offers[k..][1..] == offers[k + 1..];
      if n <= 0 {
        received := received + n;
        break;
      }
      received := received + n;
      k := k + 1;
    }
    outcome := if ended then Returned(0) else Blocked;
    bytesReceived := Some(received);
  }

  /**
   * A peer that sends exactly the missing bytes, in any chunking, is fully
   * received by the loop as written: one call per chunk, count equal to `size`.
   */
  lemma {:induction false} ReceivesExactChunks(size: int, received: nat, chunks: seq<int>)
    requires forall k :: 0 <= k < |chunks| ==> chunks[k] > 0
    requires received + Sum(chunks) == size
    ensures RecvFrom(size, received, chunks) == RecvRun(|chunks|, size, true)
    decreases |chunks|
  {
    if chunks != [] {
      SumPositive(chunks[1..]);
      assert CallReturn(chunks[0], size) == chunks[0];
      ReceivesExactChunks(size, received + chunks[0], chunks[1..]);
    }
  }

  /**
   * A peer that closes after fewer than `size` bytes: the loop as written
   * stops on the close (recv returns 0) and the count is exactly what was
   * sent. Contrast ErrorLowersCount, where a failing call ends it one lower.
   */
  lemma {:induction false} CloseKeepsCount(size: int, received: nat, chunks: seq<int>)
    requires forall k :: 0 <= k < |chunks| ==> chunks[k] > 0
    requires received + Sum(chunks) < size
    ensures RecvFrom(size, received, chunks + [0]) == RecvRun(|chunks| + 1, received + Sum(chunks), true)
    decreases |chunks|
  {
    if chunks == [] {
      assert [] + [0] == [0];
    } else {
      SumPositive(chunks[1..]);
      assert CallReturn(chunks[0], size) == chunks[0];
      assert (chunks + [0])[1..] == chunks[1..] + [0];
      CloseKeepsCount(size, received + chunks[0], chunks[1..]);
    }
  }

  /** Sum of a sequence of chunk sizes. */
  function Sum(chunks: seq<int>): (total: int) {
    if chunks == [] then 0 else chunks[0] + Sum(chunks[1..])
  }

  /**
   * A failing recv call lowers the count: five bytes followed by an error
   * are reported as four.
   */
  lemma ErrorLowersCount()
    ensures RecvFrom(10, 0, [5, -1]) == RecvRun(2, 4, true)
  {
  }

  /**
   * Because each call asks for `size` bytes again, the count can pass
   * `size`: nine bytes and then ten are reported as nineteen of ten.
   */
  lemma CountCanExceedSize()
    ensures RecvFrom(10, 0, [9, 10]) == RecvRun(2, 19, true)
  {
  }

  // ---------------------------------------------------------------------------
  // Receiving, corrected

  /**
   * The receive loop as evidently intended: each call asks only for the
   * bytes still missing, and only a positive result is counted.
   */
  function RecvFromFixed(size: int, received: int, offers: seq<int>): (run: RecvRun)
    requires 0 <= received
    decreases |offers|
  {
    if received >= size then RecvRun(0, received, true)
    else if offers == [] then RecvRun(0, received, false)
    else
      var n := CallReturn(offers[0], size - received);
      if n <= 0 then RecvRun(1, received, true)
      else
        var rest := RecvFromFixed(size, received + n, offers[1..]);
        RecvRun(1 + rest.calls, rest.received, rest.ended)
  }

  /** The corrected count never decreases and never passes `size`. */
  lemma {:induction false} FixedCountBounded(size: int, received: nat, offers: seq<int>)
    requires received <= size
    ensures received <= RecvFromFixed(size, received, offers).received <= size
    ensures RecvFromFixed(size, received, offers).calls <= |offers|
    decreases |offers|
  {
    if received < size && offers != [] {
      var n := CallReturn(offers[0], size - received);
      if n > 0 {
        FixedCountBounded(size, received + n, offers[1..]);
      }
    }
  }

  /**
   * A peer that sends exactly the missing bytes, in any chunking, is fully
   * received: one call per chunk and a final count equal to `size`.
   */
  lemma {:induction false} FixedReceivesExactChunks(size: int, received: nat, chunks: seq<int>)
    requires forall k :: 0 <= k < |chunks| ==> chunks[k] > 0
    requires received + Sum(chunks) == size
    ensures RecvFromFixed(size, received, chunks) == RecvRun(|chunks|, size, true)
    decreases |chunks|
  {
    if chunks != [] {
      SumPositive(chunks[1..]);
      assert CallReturn(chunks[0], size - received) == chunks[0];
      FixedReceivesExactChunks(size, received + chunks[0], chunks[1..]);
    }
  }

  /**
   * A peer that closes (or a call that fails) after fewer than `size` bytes
   * were sent: the corrected count is exactly what was sent, and the loop
   * stops on that call.
   */
  lemma {:induction false} FixedReportsEarlyStop(size: int, received: nat, chunks: seq<int>, last: int)
    requires forall k :: 0 <= k < |chunks| ==> chunks[k] > 0
    requires received + Sum(chunks) < size
    requires last <= 0
    ensures RecvFromFixed(size, received, chunks + [last]) == RecvRun(|chunks| + 1, received + Sum(chunks), true)
    decreases |chunks|
  {
    if chunks == [] {
      assert [] + [last] == [last];
    } else {
      SumPositive(chunks[1..]);
      assert CallReturn(chunks[0], size - received) == chunks[0];
      assert (chunks + [last])[1..] == chunks[1..] + [last];
      FixedReportsEarlyStop(size, received + chunks[0], chunks[1..], last);
    }
  }

  /** Positive chunks have a non-negative sum. */
  lemma {:induction false} SumPositive(chunks: seq<int>)
    requires forall k :: 0 <= k < |chunks| ==> chunks[k] > 0
    ensures Sum(chunks) >= 0
    ensures chunks != [] ==> Sum(chunks) >= chunks[0]
    decreases |chunks|
  {
    if chunks != [] {
      SumPositive(chunks[1..]);
    }
  }
}
