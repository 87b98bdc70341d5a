/**
 * The response reader shared by both clients (`_read_response`).
 *
 * The device has no framing, so a reply is "everything that arrives until the
 * line goes quiet": the reader polls with a short per-read timeout, keeps the
 * decoded chunks, and stops once data has been seen and nothing new arrived for
 * more than half a second, once the overall timeout is used up, when a read
 * fails, or (asynchronous client only) when the peer closes the stream.
 *
 * The socket and the clock are replaced by a script: the results the
 * successive reads return, and the successive readings of the monotonic clock
 * in milliseconds.
 */
module ResponseReader {
  import opened Text

  /** `SOCKET_END_OF_DATA_TIMEOUT`: silence after data that ends a reply (ms). */
  const EndOfDataMs: int := 500
  /** The default `timeout` argument of `_read_response` (ms). */
  const DefaultTimeoutMs: int := 2000
  /** The timeout of each individual read (ms). */
  const ReadTimeoutMs: int := 100

  /** Which of the two clients: blocking sockets or asyncio streams. */
  datatype Variant = Sync | Async

  /** What one read on the connection gives back. */
  datatype RecvEvent =
    | Received(data: seq<byte>)  // `recv` / `read` returned these bytes (possibly none)
    | TimedOut                   // the per-read timeout expired
    | Failed                     // any other exception

  /**
   * The environment the reader sees: the outcome of each read, in order, and
   * each reading of the clock, in order. Reads beyond the script time out;
   * readings beyond the script repeat the last one.
   */
  datatype ReadScript = ReadScript(events: seq<RecvEvent>, clock: seq<int>)

  function EventAt(s: ReadScript, k: nat): RecvEvent {
    if k < |s.events| then s.events[k] else TimedOut
  }

  function ClockAt(s: ReadScript, k: nat): int
    requires s.clock != []
  {
    if k < |s.clock| then s.clock[k] else s.clock[|s.clock| - 1]
  }

  /** The clock reaches the deadline within the script. */
  predicate RunsOut(s: ReadScript, timeout: int) {
    s.clock != [] && s.clock[|s.clock| - 1] - s.clock[0] >= timeout
  }

  /** Why the polling loop ended. */
  datatype StopReason =
    | DeadlineReached  // the loop condition failed
    | Quiet            // data was seen and the line then stayed silent too long
    | PeerClosed       // an empty read on the asyncio stream
    | ReadFailed       // a read raised something other than a timeout

  /**
   * The end state of the loop: the decoded chunks, why it stopped, how many
   * reads and clock readings it consumed, and the time the last chunk arrived.
   */
  datatype ReadOutcome = ReadOutcome(parts: seq<string>, reason: StopReason,
                                     events: nat, readings: nat, lastData: int)

  /** The non-empty payloads among the first `n` reads. */
  function Chunks(s: ReadScript, n: nat): seq<seq<byte>> {
    if n == 0 then []
    else
      var ev := EventAt(s, n - 1);
      Chunks(s, n - 1) + (if ev.Received? && ev.data != [] then [ev.data] else [])
  }

  /** A read that hands back data the reader keeps. */
  predicate IsData(ev: RecvEvent) {
    ev.Received? && ev.data != []
  }

  /**
   * The loop's variables between two passes: the chunks kept so far, when the
   * last one arrived, and how many reads and clock readings have been used.
   */
  datatype Poller = Poller(parts: seq<string>, last: int, e: nat, c: nat)

  /** The effect of one pass of the loop. */
  datatype Pass = Continue(next: Poller) | Stop(outcome: ReadOutcome)

  /**
   * One pass: read the clock for the loop test; then read once and act on the
   * result. A chunk is kept and stamped with a fresh reading; a read without
   * data after data has been kept takes another reading for the silence test.
   */
  function Step(v: Variant, s: ReadScript, timeout: int, p: Poller): (r: Pass)
    requires RunsOut(s, timeout) && 1 <= p.c
    ensures r.Continue? ==>
              && ClockAt(s, p.c) - s.clock[0] < timeout
              && r.next.e == p.e + 1 && p.c < r.next.c <= |s.clock|
              && r.next.parts == p.parts + (if IsData(EventAt(s, p.e)) then [Decode(EventAt(s, p.e).data)] else [])
              && !EventAt(s, p.e).Failed?
              && (v == Async ==> !EventAt(s, p.e).Received? || IsData(EventAt(s, p.e)))
    ensures r.Stop? ==>
              && r.outcome.parts == p.parts && p.c < r.outcome.readings
              && (r.outcome.reason == DeadlineReached <==> r.outcome.events == p.e)
              && (r.outcome.reason != DeadlineReached ==> !IsData(EventAt(s, p.e)))
              && (r.outcome.reason == DeadlineReached ==> ClockAt(s, r.outcome.readings - 1) - s.clock[0] >= timeout)
              && (r.outcome.reason == ReadFailed ==> EventAt(s, p.e).Failed?)
              && (r.outcome.reason == PeerClosed ==> v == Async && EventAt(s, p.e) == Received([]))
              && (r.outcome.reason == Quiet ==>
                    p.parts != [] && ClockAt(s, r.outcome.readings - 1) - r.outcome.lastData > EndOfDataMs)
  {
    var parts, last, e, c := p.parts, p.last, p.e, p.c;
    if ClockAt(s, c) - s.clock[0] >= timeout then Stop(ReadOutcome(parts, DeadlineReached, e, c + 1, last))
    else
      var ev := EventAt(s, e);
      if ev.Failed? then Stop(ReadOutcome(parts, ReadFailed, e + 1, c + 1, last))
      else if IsData(ev) then Continue(Poller(parts + [Decode(ev.data)], ClockAt(s, c + 1), e + 1, c + 2))
      else if ev.Received? && v == Async then Stop(ReadOutcome(parts, PeerClosed, e + 1, c + 1, last))
      else if parts == [] then Continue(Poller(parts, last, e + 1, c + 1))
      else if ClockAt(s, c + 1) - last > EndOfDataMs then Stop(ReadOutcome(parts, Quiet, e + 1, c + 2, last))
      else Continue(Poller(parts, last, e + 1, c + 2))
  }

  /**
   * The loop run from `p` until a pass stops it. It ends at the deadline, on a
   * failed read, on an empty read of the asyncio stream, or after a read
   * without data once data has been kept and the line has stayed silent for
   * more than `EndOfDataMs`; no read before the last one failed, and on the
   * asyncio stream none before the last was empty.
   */
  function PollFrom(v: Variant, s: ReadScript, timeout: int, p: Poller): (r: ReadOutcome)
    requires RunsOut(s, timeout) && 1 <= p.c
    decreases |s.clock| - p.c
    ensures p.e <= r.events && p.c < r.readings
    ensures |p.parts| <= |r.parts| && r.parts[..|p.parts|] == p.parts
    ensures r.reason == DeadlineReached ==> ClockAt(s, r.readings - 1) - s.clock[0] >= timeout
    ensures r.reason == ReadFailed ==> p.e < r.events && EventAt(s, r.events - 1).Failed?
    ensures r.reason == PeerClosed ==> v == Async && p.e < r.events && EventAt(s, r.events - 1) == Received([])
    ensures r.reason == Quiet ==>
              && r.parts != [] && ClockAt(s, r.readings - 1) - r.lastData > EndOfDataMs
              && p.e < r.events && !IsData(EventAt(s, r.events - 1))
    ensures forall k :: p.e <= k < r.events - 1 ==> !EventAt(s, k).Failed?
    ensures v == Async ==> forall k :: p.e <= k < r.events - 1 ==> EventAt(s, k) != Received([])
  {
    match Step(v, s, timeout, p)
    case Stop(o) => o
    case Continue(q) => PollFrom(v, s, timeout, q)
  }

  /** The whole loop: nothing read yet, `start_time` taken from reading 0. */
  function Poll(v: Variant, s: ReadScript, timeout: int): (r: ReadOutcome)
    requires RunsOut(s, timeout)
    ensures 1 < r.readings
    ensures r.reason == DeadlineReached ==> ClockAt(s, r.readings - 1) - s.clock[0] >= timeout
    ensures r.reason == ReadFailed ==> 0 < r.events && EventAt(s, r.events - 1).Failed?
    ensures r.reason == PeerClosed ==> v == Async && 0 < r.events && EventAt(s, r.events - 1) == Received([])
    ensures r.reason == Quiet ==> r.parts != [] && ClockAt(s, r.readings - 1) - r.lastData > EndOfDataMs
  {
    PollFrom(v, s, timeout, Poller([], s.clock[0], 0, 1))
  }

  /** What `_read_response` returns once it has a connection: the joined chunks, stripped. */
  function ReplyText(o: ReadOutcome): (text: string)
    ensures o.parts == [] ==> text == []
  {
    var t := Flatten(o.parts);
    assert o.parts == [] ==> t == [];
    assert TrimStart(t) == [] ==> TrimEnd(TrimStart(t)) == [];
    Strip(t)
  }

  /** One more read extends the payloads by its own, if it carries one. */
  lemma ChunksStep(s: ReadScript, e: nat)
    ensures IsData(EventAt(s, e)) ==>
              DecodeEach(Chunks(s, e)) + [Decode(EventAt(s, e).data)] == DecodeEach(Chunks(s, e + 1))
    ensures !IsData(EventAt(s, e)) ==> DecodeEach(Chunks(s, e)) == DecodeEach(Chunks(s, e + 1))
  {
    var ev := EventAt(s, e);
    var before := Chunks(s, e);
    if IsData(ev) {
      assert Chunks(s, e + 1) == before + [ev.data];
      assert (before + [ev.data])[..|before|] == before;
    } else {
      assert Chunks(s, e + 1) == before + [];
      assert before + [] == before;
    }
  }

  /** A pass keeps the chunks equal to the decoded payloads of the reads it has used. */
  lemma StepParts(v: Variant, s: ReadScript, timeout: int, p: Poller)
    requires RunsOut(s, timeout) && 1 <= p.c
    requires p.parts == DecodeEach(Chunks(s, p.e))
    ensures var r := Step(v, s, timeout, p);
            && (r.Continue? ==> r.next.parts == DecodeEach(Chunks(s, r.next.e)))
            && (r.Stop? ==> r.outcome.parts == DecodeEach(Chunks(s, r.outcome.events)))
  {
    ChunksStep(s, p.e);
  }

  /** The chunks kept are exactly the decoded non-empty payloads among the reads consumed. */
  lemma {:induction false} PollFromParts(v: Variant, s: ReadScript, timeout: int, p: Poller)
    requires RunsOut(s, timeout) && 1 <= p.c
    requires p.parts == DecodeEach(Chunks(s, p.e))
    ensures var r := PollFrom(v, s, timeout, p);
            r.parts == DecodeEach(Chunks(s, r.events))
    decreases |s.clock| - p.c
  {
    StepParts(v, s, timeout, p);
    match Step(v, s, timeout, p)
    case Stop(o) =>
    case Continue(q) =>
      PollFromParts(v, s, timeout, q);
  }

  /** The reply is the received bytes, concatenated, decoded and stripped. */
  lemma ReplyIsReceivedText(v: Variant, s: ReadScript, timeout: int)
    requires RunsOut(s, timeout)
    ensures var r := Poll(v, s, timeout);
            ReplyText(r) == Strip(Decode(Flatten(Chunks(s, r.events))))
  {
    PollFromParts(v, s, timeout, Poller([], s.clock[0], 0, 1));
    var r := Poll(v, s, timeout);
    DecodeFlatten(Chunks(s, r.events));
  }

  /** A reply never contains anything but ASCII. */
  lemma ReplyIsAscii(v: Variant, s: ReadScript, timeout: int)
    requires RunsOut(s, timeout)
    ensures IsAscii(ReplyText(Poll(v, s, timeout)))
  {
    ReplyIsReceivedText(v, s, timeout);
    var r := Poll(v, s, timeout);
    StripAscii(Decode(Flatten(Chunks(s, r.events))));
  }

  /** Without a single non-empty read, the reply is empty. */
  lemma {:induction false} NoDataChunks(s: ReadScript, n: nat)
    requires forall k :: 0 <= k < n ==> !IsData(EventAt(s, k))
    ensures Chunks(s, n) == []
  {
    if n > 0 {
      NoDataChunks(s, n - 1);
    }
  }

  lemma NoDataNoReply(v: Variant, s: ReadScript, timeout: int)
    requires RunsOut(s, timeout)
    requires forall k :: 0 <= k < |s.events| ==> !IsData(s.events[k])
    ensures ReplyText(Poll(v, s, timeout)) == []
  {
    var r := Poll(v, s, timeout);
    forall k | 0 <= k < r.events
      ensures !IsData(EventAt(s, k))
    {
    }
    NoDataChunks(s, r.events);
    PollFromParts(v, s, timeout, Poller([], s.clock[0], 0, 1));
  }

  /** The blocking client treats an empty read as "nothing yet", never as the end of the stream. */
  lemma SyncNeverSeesClose(s: ReadScript, timeout: int)
    requires RunsOut(s, timeout)
    ensures Poll(Sync, s, timeout).reason != PeerClosed
  {
  }

  /**
   * The polling loop of `_read_response`, step by step. Each pass takes the
   * clock for the loop test, performs one read and acts on its result.
   */
  method ReadLoop(v: Variant, s: ReadScript, timeout: int) returns (r: ReadOutcome)
    requires RunsOut(s, timeout)
    ensures r == Poll(v, s, timeout)
  {
    var start := s.clock[0];
    var parts: seq<string> := [];
    var last := start;
    var e, c := 0, 1;
    while true
      invariant 1 <= c
      invariant PollFrom(v, s, timeout, Poller(parts, last, e, c)) == Poll(v, s, timeout)
      decreases |s.clock| - c
    {
      ghost var pass := Step(v, s, timeout, Poller(parts, last, e, c));
      var now := ClockAt(s, c);
      if now - start >= timeout {
        r := ReadOutcome(parts, DeadlineReached, e, c + 1, last);
        return;
      }
      var ev := EventAt(s, e);
      e := e + 1;
      c := c + 1;
      if ev.Failed? {
        r := ReadOutcome(parts, ReadFailed, e, c, last);
        return;
      } else if IsData(ev) {
        parts := parts + [Decode(ev.data)];
        last := ClockAt(s, c);
        c := c + 1;
      } else if ev.Received? && v == Async {
        r := ReadOutcome(parts, PeerClosed, e, c, last);
        return;
      } else if parts != [] {
        var later := ClockAt(s, c);
        c := c + 1;
        if later - last > EndOfDataMs {
          r := ReadOutcome(parts, Quiet, e, c, last);
          return;
        }
      }
      assert pass == Continue(Poller(parts, last, e, c));
    }
  }

  // ------------------------------------------------------------------ examples

  /** A pass that reads a chunk before the deadline keeps it and continues. */
  lemma DataPass(v: Variant, s: ReadScript, timeout: int, p: Poller, d: seq<byte>)
    requires RunsOut(s, timeout) && 1 <= p.c
    requires ClockAt(s, p.c) - s.clock[0] < timeout && EventAt(s, p.e) == Received(d) && d != []
    ensures PollFrom(v, s, timeout, p)
            == PollFrom(v, s, timeout, Poller(p.parts + [Decode(d)], ClockAt(s, p.c + 1), p.e + 1, p.c + 2))
  {
  }

  /** A pass that times out after data, with the line silent too long, ends the loop. */
  lemma QuietPass(v: Variant, s: ReadScript, timeout: int, p: Poller)
    requires RunsOut(s, timeout) && 1 <= p.c
    requires ClockAt(s, p.c) - s.clock[0] < timeout && EventAt(s, p.e) == TimedOut
    requires p.parts != [] && ClockAt(s, p.c + 1) - p.last > EndOfDataMs
    ensures PollFrom(v, s, timeout, p) == ReadOutcome(p.parts, Quiet, p.e + 1, p.c + 2, p.last)
  {
  }

  /** On the asyncio stream an empty read ends the loop. */
  lemma ClosePass(s: ReadScript, timeout: int, p: Poller)
    requires RunsOut(s, timeout) && 1 <= p.c
    requires ClockAt(s, p.c) - s.clock[0] < timeout && EventAt(s, p.e) == Received([])
    ensures PollFrom(Async, s, timeout, p) == ReadOutcome(p.parts, PeerClosed, p.e + 1, p.c + 1, p.last)
  {
  }

  /** On the blocking socket an empty read after data, before the silence limit, is waited out. */
  lemma IdlePass(s: ReadScript, timeout: int, p: Poller)
    requires RunsOut(s, timeout) && 1 <= p.c
    requires ClockAt(s, p.c) - s.clock[0] < timeout
    requires EventAt(s, p.e) == Received([]) || EventAt(s, p.e) == TimedOut
    requires p.parts != [] && ClockAt(s, p.c + 1) - p.last <= EndOfDataMs
    ensures PollFrom(Sync, s, timeout, p) == PollFrom(Sync, s, timeout, Poller(p.parts, p.last, p.e + 1, p.c + 2))
  {
  }

  /** The joined text of two chunks. */
  lemma FlattenTwo(a: string, b: string)
    ensures Flatten([a, b]) == a + b
  {
    assert [a, b][..1] == [a];
  }

  /**
   * Two chunks arrive back to back and then the line stays silent: the
   * blocking reader stops after 850 ms of silence and returns both chunks
   * joined and stripped.
   */
  lemma SyncTwoChunks(s: ReadScript, a: string, b: string)
    requires IsAscii(a) && IsAscii(b) && a != [] && b != []
    requires s.events == [Received(Encode(a)), Received(Encode(b))]
    requires |s.clock| == 9 && s.clock[8] == 2000
    requires s.clock[0] == 0 && s.clock[1] == 0 && s.clock[2] == 50 && s.clock[3] == 100
    requires s.clock[4] == 150 && s.clock[5] == 700 && s.clock[6] == 1000
    ensures Poll(Sync, s, DefaultTimeoutMs) == ReadOutcome([a, b], Quiet, 3, 7, 150)
    ensures ReplyText(Poll(Sync, s, DefaultTimeoutMs)) == Strip(a + b)
  {
    TwoChunkPasses(s, a, b);
    FlattenTwo(a, b);
  }

  /** The three passes of the blocking reader over two back-to-back chunks and then silence. */
  lemma TwoChunkPasses(s: ReadScript, a: string, b: string)
    requires IsAscii(a) && IsAscii(b) && a != [] && b != []
    requires s.events == [Received(Encode(a)), Received(Encode(b))]
    requires |s.clock| == 9 && s.clock[8] == 2000
    requires s.clock[0] == 0 && s.clock[1] == 0 && s.clock[2] == 50 && s.clock[3] == 100
    requires s.clock[4] == 150 && s.clock[5] == 700 && s.clock[6] == 1000
    ensures Poll(Sync, s, DefaultTimeoutMs) == ReadOutcome([a, b], Quiet, 3, 7, 150)
  {
    var t := DefaultTimeoutMs;
    DecodeEncode(a);
    DecodeEncode(b);
    DataPass(Sync, s, t, Poller([], 0, 0, 1), Encode(a));
    DataPass(Sync, s, t, Poller([a], 50, 1, 3), Encode(b));
    QuietPass(Sync, s, t, Poller([a, b], 150, 2, 5));
  }

  /**
   * A chunk followed by an empty read. The asyncio reader takes the empty
   * read as the peer closing and returns at once; the blocking reader waits
   * until the line has been silent for over half a second. Both return the
   * chunk, stripped.
   */
  lemma ChunkThenEmptyRead(s: ReadScript, a: string)
    requires IsAscii(a) && a != []
    requires s.events == [Received(Encode(a)), Received([])]
    requires |s.clock| == 10 && s.clock[9] == 2000
    requires s.clock[0] == 0 && s.clock[1] == 0 && s.clock[2] == 50 && s.clock[3] == 100
    requires s.clock[4] == 150 && s.clock[5] == 200 && s.clock[6] == 500 && s.clock[7] == 1000
    requires s.clock[8] == 1500
    ensures Poll(Async, s, DefaultTimeoutMs) == ReadOutcome([a], PeerClosed, 2, 4, 50)
    ensures Poll(Sync, s, DefaultTimeoutMs) == ReadOutcome([a], Quiet, 4, 9, 50)
    ensures ReplyText(Poll(Async, s, DefaultTimeoutMs)) == Strip(a)
    ensures ReplyText(Poll(Sync, s, DefaultTimeoutMs)) == Strip(a)
  {
    DecodeEncode(a);
    var t := DefaultTimeoutMs;
    DataPass(Async, s, t, Poller([], 0, 0, 1), Encode(a));
    ClosePass(s, t, Poller([a], 50, 1, 3));
    DataPass(Sync, s, t, Poller([], 0, 0, 1), Encode(a));
    IdlePass(s, t, Poller([a], 50, 1, 3));
    IdlePass(s, t, Poller([a], 50, 2, 5));
    QuietPass(Sync, s, t, Poller([a], 50, 3, 7));
    assert Flatten([a]) == a by { assert [a][..0] == []; }
  }
}
