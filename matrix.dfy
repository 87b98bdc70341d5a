/**
 * The two clients, `HDMIMatrix` (blocking socket) and `AsyncHDMIMatrix`
 * (asyncio streams), as one class parameterised by its variant. The fields
 * the Python objects update in place are the fields here; every method is
 * proved to do what the functions of the `Session` and `Requests` modules
 * say, so the properties proved there hold of the object.
 *
 * The network is a parameter of each method that touches it. The ghost field
 * `trace` records the transport calls made, in order.
 */
module Driver {
  import opened Wrappers
  import opened Text
  import opened Commands
  import opened StatusParser
  import opened ResponseReader
  import opened Session
  import opened Requests

  /** Why a public command method fails: a `ValueError` from validation, or an error of the request. */
  datatype Failure = Invalid(range: RangeError) | Request(cause: RequestError)

  /** The result of a public command method, from the result of its request. */
  function Lift(r: Result<string, RequestError>): Result<string, Failure>
  {
    match r
    case Ok(text) => Ok(text)
    case Err(e) => Err(Request(e))
  }

  class Matrix {
    const variant: Variant
    const autoReconnect: bool
    /** `connection` (blocking) or `reader`/`writer` (asyncio). */
    var handle: Option<Handle>
    /** Whether `_connection_lock` is set. */
    var lock: bool
    /** The transport calls made so far. */
    ghost var trace: seq<Call>

    /** The connection fields as one value. */
    function State(): Link
      reads this
    {
      Link(handle, lock)
    }

    ghost predicate Valid()
      reads this
    {
      Session.Valid(variant, State())
    }

    /** `__init__`: nothing connected yet. */
    constructor (v: Variant, auto: bool)
      ensures variant == v && autoReconnect == auto
      ensures State() == Unlinked && trace == [] && Valid()
    {
      variant := v;
      autoReconnect := auto;
      handle := None;
      lock := false;
      trace := [];
    }

    /** `connect`, the network answering the attempt with `a`. */
    method Connect(a: ConnectAttempt) returns (ok: bool)
      requires Valid()
      modifies this
      ensures (State(), ok) == Session.Connect(variant, old(State()), a)
      ensures trace == old(trace) + [Call.Connect]
    {
      trace := trace + [Call.Connect];
      if variant == Sync {
        handle := Some(Socket(SocketTimeoutMs));
        if a == Greeted {
          ok := true;
        } else {
          // the handler closes the socket and clears the field
          handle := None;
          ok := false;
        }
      } else {
        if a == Refused {
          ok := false;
        } else {
          handle := Some(Streams(false));
          lock := true;
          if a == GreetingFailed {
            // the greeting read raised because the transport lost its connection, which closes the writer
            handle := Some(Streams(true));
            ok := false;
          } else {
            // a greeting timeout is ignored
            ok := true;
          }
        }
      }
    }

    /** `disconnect`. */
    method Disconnect()
      modifies this
      ensures State() == Session.Disconnect(variant, old(State()))
      ensures trace == old(trace) + (if old(handle).Some? then [Close] else [])
    {
      if handle.Some? {
        trace := trace + [Close];
        handle := None;
        if variant == Async {
          lock := false;
        }
      }
    }

    /** `send(request)`, or `write(request)` then `drain()`; the network decides whether it raises. */
    method Send(request: seq<byte>, outcome: SendOutcome) returns (delivered: bool)
      modifies this
      ensures delivered <==> outcome == Delivered
      ensures State() == old(State()) && trace == old(trace) + [Call.Send(request)]
    {
      trace := trace + [Call.Send(request)];
      delivered := outcome == Delivered;
    }

    /**
     * `_read_response`, the reads and clock readings given by `s`. The blocking
     * client shortens its socket timeout for the loop and restores the saved
     * one afterwards, so the connection is as it was.
     */
    method ReadResponse(s: ReadScript) returns (text: string)
      requires RunsOut(s, DefaultTimeoutMs)
      modifies this
      ensures text == ReadReply(variant, old(State()), s)
      ensures State() == old(State())
      ensures trace == old(trace) + (if old(handle).Some? then [Read] else [])
    {
      var l := State();
      if l.handle.Some? {
        trace := trace + [Read];
      }
      if variant == Sync && l.handle.Some? {
        // a short timeout for the loop; the saved socket (and its timeout) afterwards
        handle := Some(Socket(ReadTimeoutMs));
        text := Receive(variant, l, s);
        handle := l.handle;
      } else {
        text := Receive(variant, l, s);
      }
    }

    /**
     * The checks `_process_request` makes before sending: connect when not
     * connected and reconnection is allowed, then (asyncio) insist on the lock.
     */
    method ConnectIfNeeded(ghost w: World, a: ConnectAttempt) returns (error: Option<RequestError>)
      requires Valid() && w.connect1 == a
      modifies this
      ensures var p := Prepare(variant, autoReconnect, old(State()), w);
              error == p.error && State() == p.link && trace == old(trace) + p.calls
      ensures Valid()
    {
      if !Session.IsConnected(State()) {
        if autoReconnect {
          var ok := Connect(a);
          if !ok {
            return Some(AutoReconnectFailed);
          }
        } else {
          return Some(NotConnected);
        }
      }
      if variant == Async && !lock {
        return Some(NotConnected);
      }
      return None;
    }

    /** The retry: send the request again and read; a failing send is not caught. */
    method Resend(request: seq<byte>, outcome: SendOutcome, s: ReadScript) returns (r: Result<string, RequestError>)
      requires handle.Some? && RunsOut(s, DefaultTimeoutMs)
      modifies this
      ensures r == if outcome == SendFailed then Err(RetrySendFailed) else Ok(ReplyText(Poll(variant, s, DefaultTimeoutMs)))
      ensures State() == old(State())
      ensures trace == old(trace) + if outcome == SendFailed then [Call.Send(request)] else [Call.Send(request), Read]
    {
      var delivered := Send(request, outcome);
      if !delivered {
        return Err(RetrySendFailed);
      }
      var text := ReadResponse(s);
      AppendTwo(old(trace), Call.Send(request), Read);
      return Ok(text);
    }

    /**
     * The handler of `_process_request` once the send failed: disconnect, then
     * reconnect once if allowed and, if that works, send again and read.
     */
    method RetryAfterFailure(request: seq<byte>, n: Network, ghost w: World) returns (r: Result<string, RequestError>)
      requires Valid() && handle.Some? && Timely(n) && w == Observe(variant, n)
      modifies this
      ensures var t := Requests.Recover(variant, autoReconnect, old(State()), request, w);
              r == t.result && State() == t.link && trace == old(trace) + t.calls
      ensures Valid()
    {
      ghost var tr := trace;
      Disconnect();
      if autoReconnect {
        var ok := Connect(n.connect2);
        AppendTwo(tr, Close, Call.Connect);
        if ok {
          r := Resend(request, n.send2, n.read2);
          AppendAfterTwo(tr, Close, Call.Connect, Call.Send(request), Read);
          return;
        }
      }
      return Err(ConnectionLost);
    }

    /**
     * `_process_request(request)`, the network behaving as `n`: the result, the
     * connection afterwards and the calls made are those of `Transact`.
     */
    method ProcessRequest(request: seq<byte>, n: Network) returns (r: Result<string, RequestError>)
      requires Valid() && Timely(n)
      modifies this
      ensures var t := Transact(variant, autoReconnect, old(State()), request, Observe(variant, n));
              r == t.result && State() == t.link && trace == old(trace) + t.calls
      ensures Valid()
    {
      ghost var w := Observe(variant, n);
      ghost var p := Prepare(variant, autoReconnect, State(), w);
      var error := ConnectIfNeeded(w, n.connect1);
      if error.Some? {
        return Err(error.value);
      }
      var delivered := Send(request, n.send1);
      Extended(old(trace), p.calls, [Call.Send(request)]);
      if delivered {
        var text := ReadResponse(n.read1);
        AppendTwo(old(trace) + p.calls, Call.Send(request), Read);
        Extended(old(trace), p.calls, [Call.Send(request), Read]);
        return Ok(text);
      }
      ghost var l1 := State();
      r := RetryAfterFailure(request, n, w);
      Extended(old(trace), p.calls + [Call.Send(request)], Requests.Recover(variant, autoReconnect, l1, request, w).calls);
    }

    /**
     * One of the generated methods of the fixed table (`get_device_name`,
     * `power_on`, ...): the request is the member's value.
     */
    method CallSimple(name: string, n: Network) returns (r: Result<string, RequestError>)
      requires Valid() && Timely(n) && SimplePayload(name).Some?
      modifies this
      ensures var t := Transact(variant, autoReconnect, old(State()), SimplePayload(name).value, Observe(variant, n));
              r == t.result && State() == t.link && trace == old(trace) + t.calls
      ensures Valid()
    {
      r := ProcessRequest(SimplePayload(name).value, n);
    }

    /** `get_video_status_parsed`: the routing parsed from what `get_video_status` returns. */
    method GetVideoStatusParsed(n: Network) returns (r: Result<map<nat, nat>, RequestError>)
      requires Valid() && Timely(n)
      modifies this
      ensures var t := Transact(variant, autoReconnect, old(State()), Encode(Value(StatusVideo)), Observe(variant, n));
              && r == (if t.result.Ok? then Ok(Routing(t.result.value)) else Err(t.result.error))
              && State() == t.link && trace == old(trace) + t.calls
      ensures Valid()
    {
      VideoStatusPayload();
      var status := CallSimple("get_video_status", n);
      if status.Err? {
        return Err(status.error);
      }
      var routing := ParseVideoStatus(status.value);
      return Ok(routing);
    }

    /** `route_input_to_output`: a rejected port pair raises before any request. */
    method RouteInputToOutput(input: int, output: int, n: Network) returns (r: Result<string, Failure>)
      requires Valid() && Timely(n)
      modifies this
      ensures var c := BuildRouteCommand(input, output);
              c.Err? ==> r == Err(Invalid(c.error)) && State() == old(State()) && trace == old(trace)
      ensures var c := BuildRouteCommand(input, output);
              c.Ok? ==>
                var t := Transact(variant, autoReconnect, old(State()), c.value, Observe(variant, n));
                r == Lift(t.result) && State() == t.link && trace == old(trace) + t.calls
      ensures Valid()
    {
      var c := BuildRouteCommand(input, output);
      if c.Err? {
        return Err(Invalid(c.error));
      }
      var result := ProcessRequest(c.value, n);
      r := Lift(result);
    }

    /** `output_on` and `output_off`, which differ only in the payload's first character. */
    method SwitchOutput(on: bool, output: int, n: Network) returns (r: Result<string, Failure>)
      requires Valid() && Timely(n)
      modifies this
      ensures var c := BuildSwitchCommand(on, output);
              c.Err? ==> r == Err(Invalid(c.error)) && State() == old(State()) && trace == old(trace)
      ensures var c := BuildSwitchCommand(on, output);
              c.Ok? ==>
                var t := Transact(variant, autoReconnect, old(State()), c.value, Observe(variant, n));
                r == Lift(t.result) && State() == t.link && trace == old(trace) + t.calls
      ensures Valid()
    {
      var c := if on then BuildOutputOnCommand(output) else BuildOutputOffCommand(output);
      if c.Err? {
        return Err(Invalid(c.error));
      }
      var result := ProcessRequest(c.value, n);
      r := Lift(result);
    }

    /** `__enter__`: connect, raising "Failed to connect" when that returns False. */
    method Enter(a: ConnectAttempt) returns (ok: bool)
      requires Valid()
      modifies this
      ensures ok <==> Succeeds(variant, a)
      ensures State() == Session.Connect(variant, old(State()), a).0
      ensures trace == old(trace) + [Call.Connect]
    {
      ok := Connect(a);
    }

    /** `__exit__`: disconnect, whatever happened inside the block. */
    method Exit()
      modifies this
      ensures State() == Session.Disconnect(variant, old(State()))
      ensures !Session.IsConnected(State())
    {
      Disconnect();
    }
  }

  /** `get_video_status` is in the fixed table and sends `STA_VIDEO.`. */
  lemma VideoStatusPayload()
    ensures SimplePayload("get_video_status") == Some(Encode(Value(StatusVideo)))
  {
    SimpleTableWellFormed();
    assert SimpleCommands[4] == ("get_video_status", StatusVideo);
  }

  // ---------------------------------------------------------------- proof helpers

  /*
   * Proof helpers for the trace equalities above: appending calls to the
   * trace in steps is appending them at once. They state nothing about the
   * driver.
   */

  lemma Extended(trace: seq<Call>, first: seq<Call>, next: seq<Call>)
    ensures (trace + first) + next == trace + (first + next)
  {
  }

  lemma AppendTwo(trace: seq<Call>, a: Call, b: Call)
    ensures (trace + [a]) + [b] == trace + [a, b]
  {
  }

  lemma AppendAfterTwo(trace: seq<Call>, a: Call, b: Call, c: Call, d: Call)
    ensures (trace + [a, b]) + [c] == trace + [a, b, c]
    ensures (trace + [a, b]) + [c, d] == trace + [a, b, c, d]
  {
  }
}
