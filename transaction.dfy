/**
 * `_process_request`: the policy that decides, for one request, whether to
 * connect first, what to send, when to give up and when to retry once.
 *
 * The network's behaviour during the request is a parameter (`World`): how
 * the connect attempts go, whether each send goes through, and what each
 * read sees. The function returns the result, the link afterwards and the
 * transport calls made, in order.
 */
module Requests {
  import opened Wrappers
  import opened Text
  import opened ResponseReader
  import opened Session

  /** Whether `send` (blocking) or `write` + `drain` (asyncio) goes through or raises an `OSError`. */
  datatype SendOutcome = Delivered | SendFailed

  /** The `RuntimeError`s a request can end with, and the retry's own error. */
  datatype RequestError =
    | NotConnected         // "Not connected. Call connect() first."
    | AutoReconnectFailed  // "Not connected and auto-reconnect failed."
    | ConnectionLost       // "Connection lost during request: ..."
    | RetrySendFailed      // the retry's send raised; its `OSError` propagates as is

  /** An operation on the transport. */
  datatype Call = Connect | Send(data: seq<byte>) | Read | Close

  /**
   * What the network does during one request, in the order the request can
   * meet it: the first connect (when not connected), the first send and the
   * text its read returns, the reconnect after a failed send, the retry send
   * and the text its read returns.
   */
  datatype World = World(connect1: ConnectAttempt, send1: SendOutcome, reply1: string,
                         connect2: ConnectAttempt, send2: SendOutcome, reply2: string)

  /** The same, with each read given as the script the response reader runs on. */
  datatype Network = Network(connect1: ConnectAttempt, send1: SendOutcome, read1: ReadScript,
                             connect2: ConnectAttempt, send2: SendOutcome, read2: ReadScript)

  /** Both reads' clocks reach the reader's deadline. */
  predicate Timely(n: Network) {
    RunsOut(n.read1, DefaultTimeoutMs) && RunsOut(n.read2, DefaultTimeoutMs)
  }

  /**
   * The world a request sees: each read returns what the response reader
   * makes of its script, so each reply is the stripped text of the bytes that
   * read received, and is ASCII.
   */
  function Observe(v: Variant, n: Network): (w: World)
    requires Timely(n)
    ensures w.reply1 == Strip(Decode(Flatten(Chunks(n.read1, Poll(v, n.read1, DefaultTimeoutMs).events))))
    ensures w.reply2 == Strip(Decode(Flatten(Chunks(n.read2, Poll(v, n.read2, DefaultTimeoutMs).events))))
    ensures IsAscii(w.reply1) && IsAscii(w.reply2)
  {
    ReplyIsReceivedText(v, n.read1, DefaultTimeoutMs);
    ReplyIsReceivedText(v, n.read2, DefaultTimeoutMs);
    ReplyIsAscii(v, n.read1, DefaultTimeoutMs);
    ReplyIsAscii(v, n.read2, DefaultTimeoutMs);
    World(n.connect1, n.send1, ReplyText(Poll(v, n.read1, DefaultTimeoutMs)),
          n.connect2, n.send2, ReplyText(Poll(v, n.read2, DefaultTimeoutMs)))
  }

  datatype Transaction = Transaction(result: Result<string, RequestError>, link: Link, calls: seq<Call>)

  /**
   * The part of `_process_request` after the first send failed on an open
   * link: disconnect, then reconnect once if allowed and, if that works, send
   * once more and read; a failure of that second send propagates.
   */
  function Recover(v: Variant, auto: bool, l: Link, request: seq<byte>, w: World): (t: Transaction)
    requires l.handle.Some?
    ensures t.calls != [] && t.calls[0] == Close
    ensures t.result.Ok? ==> t.result.value == w.reply2
    ensures t.result == Err(ConnectionLost) <==> !auto || !Succeeds(v, w.connect2)
    ensures t.result == Err(RetrySendFailed) <==> auto && Succeeds(v, w.connect2) && w.send2 == SendFailed
    ensures t.result.Ok? <==> auto && Succeeds(v, w.connect2) && w.send2 != SendFailed
  {
    var l1 := Disconnect(v, l);
    if !auto then Transaction(Err(ConnectionLost), l1, [Close])
    else
      var (l2, ok) := Session.Connect(v, l1, w.connect2);
      if !ok then Transaction(Err(ConnectionLost), l2, [Close, Connect])
      else if w.send2 == SendFailed then Transaction(Err(RetrySendFailed), l2, [Close, Connect, Send(request)])
      else Transaction(Ok(w.reply2), l2, [Close, Connect, Send(request), Read])
  }

  /** Every send among `calls` puts `request` on the wire. */
  predicate SendsOnly(calls: seq<Call>, request: seq<byte>) {
    forall c :: c in calls && c.Send? ==> c.data == request
  }

  /**
   * After a failed send the handler reconnects exactly once when allowed and
   * never otherwise, sends again only after a successful reconnect, and sends
   * nothing but the request.
   */
  lemma RecoverCalls(v: Variant, auto: bool, l: Link, request: seq<byte>, w: World)
    requires l.handle.Some?
    ensures var t := Recover(v, auto, l, request, w);
            && multiset(t.calls)[Connect] == (if auto then 1 else 0)
            && multiset(t.calls)[Send(request)] == (if auto && Succeeds(v, w.connect2) then 1 else 0)
            && SendsOnly(t.calls, request)
  {
    var t := Recover(v, auto, l, request, w);
    if auto && Succeeds(v, w.connect2) {
      assert t.calls == [Close, Connect, Send(request)] || t.calls == [Close, Connect, Send(request), Read];
    } else {
      assert t.calls == [Close] || t.calls == [Close, Connect];
    }
  }

  /** The handler reads exactly when it succeeds, and the read comes last, right after the resend. */
  lemma RecoverReads(v: Variant, auto: bool, l: Link, request: seq<byte>, w: World)
    requires l.handle.Some?
    ensures var t := Recover(v, auto, l, request, w);
            && (Read in t.calls <==> t.result.Ok?)
            && (t.result.Ok? ==> |t.calls| >= 2 && t.calls[|t.calls| - 1] == Read && t.calls[|t.calls| - 2] == Send(request))
  {
  }

  /** The outcome of the checks `_process_request` makes before sending. */
  datatype Prelude = Prelude(link: Link, calls: seq<Call>, error: Option<RequestError>)

  /**
   * Before sending: when not connected, connect if reconnection is allowed
   * and fail otherwise; the asyncio client then also insists on its lock.
   */
  function Prepare(v: Variant, auto: bool, l: Link, w: World): (p: Prelude)
    ensures p.calls == (if IsConnected(l) || !auto then [] else [Connect])
    ensures p.error.None? ==> IsConnected(p.link) && (v == Async ==> p.link.lock)
    ensures IsConnected(l) ==> p.link == l
    ensures p.error == Some(AutoReconnectFailed) <==> !IsConnected(l) && auto && !Succeeds(v, w.connect1)
    ensures p.error == Some(NotConnected) <==>
              (!IsConnected(l) && !auto) || (v == Async && !p.link.lock && p.error != Some(AutoReconnectFailed))
    ensures p.error.Some? ==> p.error.value == NotConnected || p.error.value == AutoReconnectFailed
    ensures Valid(v, l) ==> Valid(v, p.link)
  {
    if !IsConnected(l) && !auto then Prelude(l, [], Some(NotConnected))
    else
      var (l1, pre, ok) :=
        if IsConnected(l) then (l, [], true)
        else
          var (l', ok) := Session.Connect(v, l, w.connect1);
          (l', [Connect], ok);
      if !ok then Prelude(l1, pre, Some(AutoReconnectFailed))
      else if v == Async && !l1.lock then Prelude(l1, pre, Some(NotConnected))
      else Prelude(l1, pre, None)
  }

  /**
   * `_process_request(request)` on a client of variant `v` whose link is `l`.
   * At most one retry: the request connects at most twice (once because it
   * was not connected, once after a failed send) and sends at most twice.
   */
  function Transact(v: Variant, auto: bool, l: Link, request: seq<byte>, w: World): (t: Transaction)
    ensures t.calls == [] ==> t.result == Err(NotConnected) && t.link == l
    ensures t.result.Ok? ==> t.result.value == w.reply1 || t.result.value == w.reply2
  {
    var p := Prepare(v, auto, l, w);
    if p.error.Some? then Transaction(Err(p.error.value), p.link, p.calls)
    else if w.send1 == Delivered then
      Transaction(Ok(w.reply1), p.link, p.calls + [Send(request), Read])
    else
      var r := Recover(v, auto, p.link, request, w);
      Transaction(r.result, r.link, p.calls + [Send(request)] + r.calls)
  }

  // ---------------------------------------------------------------- properties

  /**
   * At most one retry: a request connects at most twice (once because it was
   * not connected, once after a failed send) and sends at most twice.
   */
  lemma AtMostOneRetry(v: Variant, auto: bool, l: Link, request: seq<byte>, w: World)
    ensures var t := Transact(v, auto, l, request, w);
            multiset(t.calls)[Connect] <= 2 && multiset(t.calls)[Send(request)] <= 2
  {
    var p := Prepare(v, auto, l, w);
    var t := Transact(v, auto, l, request, w);
    if p.error.Some? {
      assert t.calls == p.calls;
    } else if w.send1 == Delivered {
      assert t.calls == p.calls + [Send(request), Read];
    } else {
      var r := Recover(v, auto, p.link, request, w);
      RecoverCalls(v, auto, p.link, request, w);
      assert t.calls == p.calls + [Send(request)] + r.calls;
      assert t.result == r.result;
    }
  }

  /**
   * After an asyncio `connect` whose greeting read failed, the next request
   * does not write to the half-open streams: with auto-reconnect on it first
   * connects again, and with it off it fails with "Not connected" without a call.
   */
  lemma HalfOpenThenRequest(l: Link, auto: bool, request: seq<byte>, w: World)
    ensures var h := Session.Connect(Async, l, GreetingFailed).0;
            var t := Transact(Async, auto, h, request, w);
            && (auto ==> t.calls != [] && t.calls[0] == Call.Connect)
            && (!auto ==> t.result == Err(NotConnected) && t.calls == [] && t.link == h)
  {
    var h := Session.Connect(Async, l, GreetingFailed).0;
    var p := Prepare(Async, auto, h, w);
    assert !IsConnected(h);
    assert p.calls == (if auto then [Call.Connect] else []);
  }

  /** Whatever happens, every send puts the request on the wire. */
  lemma SendsOnlyRequest(v: Variant, auto: bool, l: Link, request: seq<byte>, w: World)
    ensures var t := Transact(v, auto, l, request, w);
            SendsOnly(t.calls, request)
  {
    var p := Prepare(v, auto, l, w);
    assert SendsOnly(p.calls, request);
    if p.error.None? {
      if w.send1 == Delivered {
        SendsOnlyAppend(p.calls, [Send(request), Read], request);
      } else {
        var r := Recover(v, auto, p.link, request, w);
        RecoverCalls(v, auto, p.link, request, w);
        SendsOnlyAppend(p.calls, [Send(request)], request);
        SendsOnlyAppend(p.calls + [Send(request)], r.calls, request);
      }
    }
  }

  lemma SendsOnlyAppend(a: seq<Call>, b: seq<Call>, request: seq<byte>)
    requires SendsOnly(a, request) && SendsOnly(b, request)
    ensures SendsOnly(a + b, request)
  {
  }

  /** A request succeeds exactly when it gets to read, and the read is its last call, straight after a send. */
  lemma SucceedsIffRead(v: Variant, auto: bool, l: Link, request: seq<byte>, w: World)
    ensures var t := Transact(v, auto, l, request, w);
            && (Read in t.calls <==> t.result.Ok?)
            && (t.result.Ok? ==> |t.calls| >= 2 && t.calls[|t.calls| - 1] == Read && t.calls[|t.calls| - 2] == Send(request))
  {
    var p := Prepare(v, auto, l, w);
    var t := Transact(v, auto, l, request, w);
    if p.error.Some? {
      assert t.calls == p.calls;
    } else if w.send1 == Delivered {
      assert t.calls == p.calls + [Send(request), Read];
    } else {
      var r := Recover(v, auto, p.link, request, w);
      RecoverReads(v, auto, p.link, request, w);
      assert t.calls == p.calls + [Send(request)] + r.calls;
      assert t.result == r.result;
    }
  }

  /** The second send happens only when reconnection is allowed, the first send failed and the one reconnect after it succeeded. */
  lemma RetryNeedsReconnect(v: Variant, auto: bool, l: Link, request: seq<byte>, w: World)
    ensures var t := Transact(v, auto, l, request, w);
            multiset(t.calls)[Send(request)] == 2 ==> auto && w.send1 == SendFailed && Succeeds(v, w.connect2)
  {
    var p := Prepare(v, auto, l, w);
    var t := Transact(v, auto, l, request, w);
    if p.error.Some? {
      assert t.calls == p.calls;
    } else if w.send1 == Delivered {
      assert t.calls == p.calls + [Send(request), Read];
    } else {
      var r := Recover(v, auto, p.link, request, w);
      RecoverCalls(v, auto, p.link, request, w);
      assert t.calls == p.calls + [Send(request)] + r.calls;
      assert t.result == r.result;
    }
  }

  /** A successful request returns what its only read returned: the first read's text, or the retry's after one resend; the link is then connected. */
  lemma SuccessReply(v: Variant, auto: bool, l: Link, request: seq<byte>, w: World)
    ensures var t := Transact(v, auto, l, request, w);
            t.result.Ok? ==>
              && IsConnected(t.link)
              && (multiset(t.calls)[Send(request)] == 1 ==> t.result.value == w.reply1)
              && (multiset(t.calls)[Send(request)] == 2 ==> t.result.value == w.reply2)
              && 1 <= multiset(t.calls)[Send(request)]
  {
    var p := Prepare(v, auto, l, w);
    var t := Transact(v, auto, l, request, w);
    if p.error.Some? {
      assert t.calls == p.calls;
    } else if w.send1 == Delivered {
      assert t.calls == p.calls + [Send(request), Read];
    } else {
      var r := Recover(v, auto, p.link, request, w);
      RecoverCalls(v, auto, p.link, request, w);
      assert t.calls == p.calls + [Send(request)] + r.calls;
      assert t.result == r.result;
    }
  }

  /**
   * Why a request fails: "Connection lost" exactly when the first send failed
   * and no reconnect followed (not allowed, or it failed); the raw error
   * exactly when the resend after a successful reconnect failed too.
   */
  lemma FailureKinds(v: Variant, auto: bool, l: Link, request: seq<byte>, w: World)
    ensures var t := Transact(v, auto, l, request, w);
            && (t.result == Err(ConnectionLost) ==> w.send1 == SendFailed && (!auto || !Succeeds(v, w.connect2)))
            && (t.result == Err(RetrySendFailed) ==>
                  auto && w.send1 == SendFailed && Succeeds(v, w.connect2) && w.send2 == SendFailed)
            && (t.result == Err(AutoReconnectFailed) ==> auto && !IsConnected(l) && t.calls == [Connect])
            && (t.result == Err(NotConnected) ==> t.calls == [] || t.calls == [Connect])
    ensures var t := Transact(v, auto, l, request, w);
            Prepare(v, auto, l, w).error.None? && w.send1 == SendFailed ==>
              && (!auto || !Succeeds(v, w.connect2) ==> t.result == Err(ConnectionLost))
              && (auto && Succeeds(v, w.connect2) && w.send2 == SendFailed ==> t.result == Err(RetrySendFailed))
  {
    var p := Prepare(v, auto, l, w);
    var t := Transact(v, auto, l, request, w);
    if p.error.Some? {
      assert t.calls == p.calls;
    } else if w.send1 == Delivered {
      assert t.calls == p.calls + [Send(request), Read];
    } else {
      var r := Recover(v, auto, p.link, request, w);
      assert t.calls == p.calls + [Send(request)] + r.calls;
      assert t.result == r.result;
    }
  }

  /**
   * Not connected and reconnection not allowed: fail with "Not connected",
   * make no call and change nothing. Not connected and reconnection allowed:
   * connect first; if that fails, fail with "auto-reconnect failed" having
   * made no other call.
   */
  lemma NotConnectedRules(v: Variant, auto: bool, l: Link, request: seq<byte>, w: World)
    requires !IsConnected(l)
    ensures var t := Transact(v, auto, l, request, w);
            && (!auto ==> t == Transaction(Err(NotConnected), l, []))
            && (auto ==> t.calls != [] && t.calls[0] == Connect)
            && (auto && !Succeeds(v, w.connect1) ==> t.result == Err(AutoReconnectFailed) && t.calls == [Connect])
  {
    var p := Prepare(v, auto, l, w);
    var t := Transact(v, auto, l, request, w);
    if p.error.None? {
      assert t.calls[0] == p.calls[0];
    }
  }

  /** Connected and the send goes through: send, read, and return what was read. */
  lemma ConnectedRequest(v: Variant, auto: bool, l: Link, request: seq<byte>, w: World)
    requires Valid(v, l) && IsConnected(l) && w.send1 == Delivered
    ensures Transact(v, auto, l, request, w) == Transaction(Ok(w.reply1), l, [Send(request), Read])
  {
  }

  /**
   * On a well-formed link a request leaves a well-formed link, and the lock
   * check of the asyncio client never fires: "Not connected" means exactly
   * that the client was not connected and could not reconnect by itself.
   */
  lemma TransactValid(v: Variant, auto: bool, l: Link, request: seq<byte>, w: World)
    requires Valid(v, l)
    ensures var t := Transact(v, auto, l, request, w);
            && Valid(v, t.link)
            && (t.result == Err(NotConnected) <==> !IsConnected(l) && !auto)
  {
    var p := Prepare(v, auto, l, w);
    if p.error.None? && w.send1 == SendFailed {
      var r := Recover(v, auto, p.link, request, w);
      assert Valid(v, Disconnect(v, p.link));
    }
  }

  /**
   * A blocking client that fails a request holds no socket afterwards, except
   * when the resend after a successful reconnect failed: that error escapes
   * with the new socket still assigned.
   */
  lemma SyncFailureDisconnects(auto: bool, l: Link, request: seq<byte>, w: World)
    requires Valid(Sync, l)
    ensures var t := Transact(Sync, auto, l, request, w);
            t.result.Err? && t.result.error != RetrySendFailed ==> t.link.handle == None
    ensures var t := Transact(Sync, auto, l, request, w);
            t.result == Err(RetrySendFailed) ==> IsConnected(t.link)
  {
    var p := Prepare(Sync, auto, l, w);
    if p.error.None? && w.send1 == SendFailed {
      var r := Recover(Sync, auto, p.link, request, w);
    }
  }
}
