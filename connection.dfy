/**
 * The connection held by a client and the three operations on it: `connect`,
 * `disconnect` and `is_connected`, for both the blocking client (one socket)
 * and the asyncio client (a reader/writer pair plus a lock).
 *
 * What the network does when a connection is attempted is a parameter.
 */
module Session {
  import opened Wrappers
  import opened Text
  import opened ResponseReader

  /** `SOCKET_TIMEOUT`: the blocking socket's timeout after `connect` (ms). */
  const SocketTimeoutMs: int := 5000

  /**
   * The transport object a client holds: a blocking socket with its current
   * timeout, or the asyncio reader/writer pair (which are always set and
   * cleared together) with whether the writer is closing.
   */
  datatype Handle = Socket(timeoutMs: int) | Streams(closing: bool)

  /**
   * The connection fields of a client: `connection` or `reader`/`writer`, and
   * whether `_connection_lock` is set (the blocking client has none).
   */
  datatype Link = Link(handle: Option<Handle>, lock: bool)

  /** The link the constructors leave: nothing open, no lock. */
  const Unlinked: Link := Link(None, false)

  /** The shape every reachable link of a client of variant `v` has. */
  predicate Valid(v: Variant, l: Link) {
    match v
    case Sync => !l.lock && (l.handle.Some? ==> l.handle.value.Socket?)
    case Async => (l.handle.Some? <==> l.lock) && (l.handle.Some? ==> l.handle.value.Streams?)
  }

  /**
   * `is_connected`: a socket is present, or a writer is present and not
   * closing.
   */
  predicate IsConnected(l: Link)
    ensures IsConnected(l) ==> l.handle.Some?
    ensures l.handle.Some? && l.handle.value.Socket? ==> IsConnected(l)
    ensures l.handle == Some(Streams(true)) ==> !IsConnected(l)
  {
    l.handle.Some? && !(l.handle.value.Streams? && l.handle.value.closing)
  }

  /** How an attempt to connect goes on the network. */
  datatype ConnectAttempt =
    | Refused           // opening the TCP connection raises
    | Greeted           // the connection opens and the greeting read returns (any data)
    | GreetingTimedOut  // the connection opens and the greeting read times out
    | GreetingFailed    // the connection opens and the greeting read raises something else

  /** Whether `connect` returns True for this attempt. */
  predicate Succeeds(v: Variant, a: ConnectAttempt) {
    a == Greeted || (v == Async && a == GreetingTimedOut)
  }

  /**
   * `connect`: the new link and the returned flag. The blocking client builds
   * its socket first and closes and clears it on any failure, including a
   * greeting read that times out. The asyncio client assigns the streams and a
   * fresh lock once the connection opens, ignores a greeting timeout, and on
   * any other greeting error returns False with the streams still assigned.
   * Such an error reaches the read only after the transport has lost its
   * connection, so by then the writer is closing.
   */
  function Connect(v: Variant, l: Link, a: ConnectAttempt): (r: (Link, bool))
    ensures r.1 <==> Succeeds(v, a)
    ensures r.1 ==> IsConnected(r.0)
    ensures Valid(v, l) ==> Valid(v, r.0)
    ensures v == Sync && r.1 ==> r.0.handle == Some(Socket(SocketTimeoutMs))
    ensures v == Sync && !r.1 ==> r.0.handle == None
    ensures v == Sync ==> !r.0.lock
    ensures v == Async && a == Refused ==> r.0 == l
    ensures v == Async && a == GreetingFailed ==> r.0.handle == Some(Streams(true)) && r.0.lock && !IsConnected(r.0)
  {
    match v
    case Sync =>
      if a == Greeted then (Link(Some(Socket(SocketTimeoutMs)), false), true)
      else (Link(None, false), false)
    case Async =>
      if a == Refused then (l, false)
      else if a == GreetingFailed then (Link(Some(Streams(true)), true), false)
      else (Link(Some(Streams(false)), true), true)
  }

  /**
   * `disconnect`: with a connection present, close it and clear the fields
   * (the asyncio client clears the lock too); otherwise nothing happens.
   */
  function Disconnect(v: Variant, l: Link): (r: Link)
    ensures r.handle == None && !IsConnected(r)
    ensures l.handle == None ==> r == l
    ensures Valid(v, l) ==> Valid(v, r) && r == Unlinked
  {
    if l.handle.None? then l
    else if v == Async then Link(None, false)
    else Link(None, l.lock)
  }

  /** Disconnecting twice is disconnecting once. */
  lemma DisconnectIdempotent(v: Variant, l: Link)
    ensures Disconnect(v, Disconnect(v, l)) == Disconnect(v, l)
  {
  }

  /**
   * `_read_response`: without a connection the empty string, otherwise the
   * text the polling loop collects. Reading leaves the link as it was (the
   * blocking client restores the socket timeout it changed).
   */
  function ReadReply(v: Variant, l: Link, s: ReadScript): (text: string)
    requires RunsOut(s, DefaultTimeoutMs)
    ensures l.handle == None ==> text == []
  {
    if l.handle.None? then [] else ReplyText(Poll(v, s, DefaultTimeoutMs))
  }

  /** On a connection a read returns the received bytes, joined, filtered to ASCII and stripped. */
  lemma ReadReplyIsReceivedText(v: Variant, l: Link, s: ReadScript)
    requires RunsOut(s, DefaultTimeoutMs) && l.handle.Some?
    ensures ReadReply(v, l, s) == Strip(Decode(Flatten(Chunks(s, Poll(v, s, DefaultTimeoutMs).events))))
  {
    ReplyIsReceivedText(v, s, DefaultTimeoutMs);
  }

  /** What a read returns is ASCII. */
  lemma ReadReplyIsAscii(v: Variant, l: Link, s: ReadScript)
    requires RunsOut(s, DefaultTimeoutMs)
    ensures IsAscii(ReadReply(v, l, s))
  {
    if l.handle.Some? {
      ReplyIsAscii(v, s, DefaultTimeoutMs);
    }
  }

  /**
   * `_read_response` on the link `l`: nothing without a connection, otherwise
   * the polling loop followed by joining and stripping the parts.
   */
  method Receive(v: Variant, l: Link, s: ReadScript) returns (text: string)
    requires RunsOut(s, DefaultTimeoutMs)
    ensures text == ReadReply(v, l, s)
    ensures l.handle.Some? ==> text == ReplyText(Poll(v, s, DefaultTimeoutMs))
  {
    if l.handle.None? {
      return [];
    }
    var r := ReadLoop(v, s, DefaultTimeoutMs);
    text := Strip(Flatten(r.parts));
  }

  /** A blocking client whose connect fails holds no socket afterwards, whatever it held before. */
  lemma SyncFailedConnectLeavesNothing(l: Link, a: ConnectAttempt)
    requires !Succeeds(Sync, a)
    ensures !IsConnected(Connect(Sync, l, a).0)
  {
  }

  /**
   * An asyncio client whose greeting read fails reports failure and keeps the
   * streams and the lock it assigned, but its writer is already closing (a
   * stream read raises only once the transport has lost its connection), so
   * it does not count as connected.
   */
  lemma AsyncHalfOpen(l: Link)
    ensures var (h, ok) := Connect(Async, l, GreetingFailed);
            !ok && h.handle.Some? && h.handle.value.Streams? && h.handle.value.closing && h.lock
    ensures !IsConnected(Connect(Async, l, GreetingFailed).0)
  {
  }

  /** On the asyncio client the lock is present exactly when the streams are, across every operation. */
  lemma AsyncLockTracksStreams(l: Link, a: ConnectAttempt)
    requires Valid(Async, l)
    ensures Connect(Async, l, a).0.lock <==> Connect(Async, l, a).0.handle.Some?
    ensures Disconnect(Async, l).lock <==> Disconnect(Async, l).handle.Some?
    ensures IsConnected(l) ==> l.lock
  {
  }
}
