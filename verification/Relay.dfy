/**
 The query bridge: one sandboxed connection, relayed to the daemon's socket. It has an
 authentication slot from its acceptor and takes a query slot of its own.
 */
module Relay {
  import opened Basics
  import opened Framing

  /** What the bridge reads in a request, and the request it forwards. */
  datatype Request = Request(
    token: seq<byte>, bridgeProtocol: bool, command: bool, safetyProtocol: bool, forwarded: Json)

  datatype Refusal = BadToken | BadCommand | BadProtocol

  /** How a connection ends. */
  datatype Verdict =
    | Stranger                   // wrong preface
    | AllBusy                    // no query slot
    | Rejected(reason: Refusal)
    | Unavailable                // the daemon is gone, dropped the exchange, or never answered
    | FailedSafely               // anything else, reported as a safety failure
    | Relayed(payload: Body)

  /** The bridge's capability, the request decoder (None: not a JSON object) and its
      report of each refusal. */
  datatype Bridge = Bridge(
    preface: seq<byte>, token: seq<byte>, decode: seq<byte> -> Option<Request>, report: Verdict -> Body)

  function PayloadOf(b: Bridge, v: Verdict): Body {
    if v.Relayed? then v.payload else b.report(v)
  }

  /** The first of the bridge's own conditions that a request fails. */
  function Refused(b: Bridge, r: Request): Option<Refusal> {
    if !r.bridgeProtocol || r.token != b.token then Some(BadToken)
    else if !r.command then Some(BadCommand)
    else if !r.safetyProtocol then Some(BadProtocol)
    else None
  }

  ghost predicate Authenticated(b: Bridge, inbox: seq<byte>) {
    b.preface <= inbox
  }

  /** A request that the bridge may forward arrived behind the right preface. */
  ghost predicate Admitted(b: Bridge, inbox: seq<byte>) {
    && Authenticated(b, inbox)
    && Waiting(inbox[|b.preface|..], MAX_MSG)
    && var request := b.decode(FirstPayload(inbox[|b.preface|..], MAX_MSG));
       && request.Some? && request.value.bridgeProtocol && request.value.token == b.token
       && request.value.command && request.value.safetyProtocol
  }

  ghost function Forwarded(b: Bridge, inbox: seq<byte>): Json
    requires Admitted(b, inbox)
  {
    b.decode(FirstPayload(inbox[|b.preface|..], MAX_MSG)).value.forwarded
  }

  /** FileNotFoundError, ConnectionError and TimeoutError mean an outage of the daemon; any
      other failure of the exchange is reported as a violation. */
  predicate Outage(e: FrameError) {
    e.Io? && !e.error.OtherOs?
  }

  /** The exchange with the daemon: connect, one request frame out, one response frame in.
      Its error is the one that the socket raised, an early close, or a size out of bounds. */
  method Exchange(upstream: Socket, forwarded: Json) returns (r: Result<Body, FrameError>)
    requires upstream.outbox == []
    modifies upstream
    ensures upstream.closed
    ensures upstream.outbox <= Frame(forwarded)
    ensures r.Ok? ==> upstream.outbox == Frame(forwarded) && old(upstream.inbox) == Frame(r.value) + upstream.inbox
    ensures if r.Ok? then upstream.raised == old(upstream.raised)
            else ToldFrame(r.error, old(upstream.raised), upstream.raised)
    ensures r == Err(BadSize) ==> Oversized(old(upstream.inbox), MAX_RESPONSE)
    ensures upstream.calm && r.Err? && !Oversized(old(upstream.inbox), MAX_RESPONSE) ==> Outage(r.error)
    ensures upstream.calm && Oversized(old(upstream.inbox), MAX_RESPONSE) ==> r == Err(BadSize)
    ensures upstream.calm ==> (r.Ok? <==> Waiting(old(upstream.inbox), MAX_RESPONSE))
  {
    var error := upstream.Fail();  // connect
    var sent: nat := 0;
    if error.None? {
      error, sent := SendParts(upstream, forwarded);
      assert upstream.outbox == Frame(forwarded)[..sent];
    }
    if error.Some? {
      upstream.Close();
      return Err(Io(error.value));
    }
    var response := RecvFrame(upstream, MAX_RESPONSE);
    upstream.Close();
    return if response.Ok? then Ok(response.value) else Err(response.error);
  }

  /** Reads and discards until the peer closes or a deadline passes. */
  method AwaitClientClose(conn: Socket)
    modifies conn`inbox, conn`raised
  {
    while true
      decreases |conn.inbox|
    {
      var late: bool := *;
      if late {
        return;
      }
      var chunk := conn.Recv(4096);
      if chunk.Err? || chunk.value == [] {
        return;
      }
    }
  }

  /** What an admitted request must end in, by what the daemon sends. */
  ghost predicate Expected(v: Verdict, holding: bool, answer: seq<byte>) {
    if !holding then v.AllBusy?
    else if Waiting(answer, MAX_RESPONSE) then v.Relayed?
    else if Oversized(answer, MAX_RESPONSE) then v.FailedSafely?
    else v.Unavailable?
  }

  /** How the `try` block ends: its one frame sent or cut short, or any other exception. */
  datatype Ending = Sent(v: Verdict) | CutShort(v: Verdict) | Failed

  function VerdictOf(e: Ending): Verdict {
    if e.Failed? then FailedSafely else e.v
  }

  /** What has escaped downstream by then. */
  ghost predicate Escaped(b: Bridge, e: Ending, outbox: seq<byte>) {
    match e
    case Sent(v) => outbox == Frame(PayloadOf(b, v))
    case CutShort(v) => outbox <= Frame(PayloadOf(b, v)) && outbox != Frame(PayloadOf(b, v))
    case Failed => outbox == []
  }

  /** `_send_response_frame` with the frame of a verdict. Nobody may send a second one. */
  method SendVerdict(conn: Socket, b: Bridge, v: Verdict) returns (e: Ending)
    requires conn.outbox == []
    modifies conn`outbox, conn`raised
    ensures !e.Failed? && e.v == v && Escaped(b, e, conn.outbox) && (conn.calm ==> e.Sent?)
  {
    var ok, sent := SendResponseFrame(conn, PayloadOf(b, v));
    assert conn.outbox == Frame(PayloadOf(b, v))[..sent];
    return if ok then Sent(v) else CutShort(v);
  }

  /** A verdict to a client that has shown the preface: the connection stays open until the
      client has closed it. */
  method SendAndAwait(conn: Socket, b: Bridge, v: Verdict) returns (e: Ending)
    requires conn.outbox == []
    modifies conn`inbox, conn`outbox, conn`raised
    ensures !e.Failed? && e.v == v && Escaped(b, e, conn.outbox) && (conn.calm ==> e.Sent?)
  {
    e := SendVerdict(conn, b, v);
    if e.Sent? {
      AwaitClientClose(conn);
    }
  }

  /** Which verdict an exchange ends in, whatever went wrong with it. */
  ghost predicate Judged(v: Verdict, cause: Option<FrameError>) {
    && (v.Unavailable? <==> cause.Some? && cause.value.Io? && cause.value.error != OtherOs)
    && (cause == Some(BadSize) || cause == Some(Io(OtherOs)) ==> v.FailedSafely?)
  }

  /** From the request frame on: the bridge's conditions, the exchange, and the answer. */
  method TryRequest(conn: Socket, upstream: Socket, b: Bridge)
    returns (e: Ending, ghost raw: Result<seq<byte>, FrameError>, ghost cause: Option<FrameError>)
    requires conn != upstream && upstream.outbox == [] && conn.outbox == []
    modifies conn`inbox, conn`outbox, conn`raised, upstream
    ensures Escaped(b, e, conn.outbox) && (conn.calm ==> !e.CutShort?)
    ensures raw.Ok? ==> Waiting(old(conn.inbox), MAX_MSG) && raw.value == FirstPayload(old(conn.inbox), MAX_MSG)
    ensures conn.calm ==> (raw.Ok? <==> Waiting(old(conn.inbox), MAX_MSG))
    ensures Judged(VerdictOf(e), cause)
    ensures cause.Some? ==> ToldFrame(cause.value, old(upstream.raised), upstream.raised)
    ensures match Asked(b, raw)
            case Err(refusal) =>
              && upstream.outbox == [] && cause.None?
              && VerdictOf(e) == if refusal.Some? then Rejected(refusal.value) else FailedSafely
            case Ok(forwarded) =>
              && upstream.outbox <= Frame(forwarded)
              && (cause.None? ==>
                    && VerdictOf(e).Relayed? && upstream.outbox == Frame(forwarded)
                    && old(upstream.inbox) == Frame(VerdictOf(e).payload) + upstream.inbox)
              && (upstream.calm ==> Expected(VerdictOf(e), true, old(upstream.inbox)))
  {
    hide Waiting, FirstPayload, Frame, Oversized;
    cause := None;
    var frame := RecvFrame(conn, MAX_MSG);
    raw := frame;
    if frame.Err? {
      return Failed, raw, cause;
    }
    var request := b.decode(frame.value);
    if request.None? {
      return Failed, raw, cause;
    }
    var r := request.value;
    if !r.bridgeProtocol || r.token != b.token {
      e := SendAndAwait(conn, b, Rejected(BadToken));
      return;
    }
    if !r.command {
      e := SendAndAwait(conn, b, Rejected(BadCommand));
      return;
    }
    if !r.safetyProtocol {
      e := SendAndAwait(conn, b, Rejected(BadProtocol));
      return;
    }
    var response := Exchange(upstream, r.forwarded);
    if response.Err? {
      cause := Some(response.error);
      if !Outage(response.error) {
        return Failed, raw, cause;
      }
      e := SendAndAwait(conn, b, Unavailable);
      return;
    }
    e := SendAndAwait(conn, b, Relayed(response.value));
  }

  /** A request that arrived behind the right preface fails the bridge's conditions, this one
      first. */
  ghost predicate FailsFirst(b: Bridge, inbox: seq<byte>, refusal: Refusal) {
    && Authenticated(b, inbox)
    && Waiting(inbox[|b.preface|..], MAX_MSG)
    && var request := b.decode(FirstPayload(inbox[|b.preface|..], MAX_MSG));
       && request.Some?
       && var known := request.value.bridgeProtocol && request.value.token == b.token;
          match refusal
          case BadToken => !known
          case BadCommand => known && !request.value.command
          case BadProtocol => known && request.value.command && !request.value.safetyProtocol
  }

  /** The bytes that a request frame makes the bridge forward, or why it forwards none. */
  ghost function Asked(b: Bridge, raw: Result<seq<byte>, FrameError>): Result<Json, Option<Refusal>> {
    if raw.Err? || b.decode(raw.value).None? then Err(None)
    else
      var r := b.decode(raw.value).value;
      if Refused(b, r).Some? then Err(Refused(b, r)) else Ok(r.forwarded)
  }

  /** The whole `try` block. */
  method TryRelay(conn: Socket, upstream: Socket, b: Bridge, query: Slots)
    returns (e: Ending, authenticated: bool, holding: bool, ghost cause: Option<FrameError>)
    requires conn != upstream && upstream.outbox == [] && conn.outbox == []
    modifies conn`inbox, conn`outbox, conn`raised, upstream, query
    ensures query.given == old(query.given) && query.taken == old(query.taken) + (if holding then 1 else 0)
    ensures query.asked <= old(query.asked) + 1
    ensures Escaped(b, e, conn.outbox) && (conn.calm ==> !e.CutShort?)
    ensures Judged(VerdictOf(e), cause)
    ensures cause.Some? ==> ToldFrame(cause.value, old(upstream.raised), upstream.raised)
    ensures authenticated ==> Authenticated(b, old(conn.inbox))
    ensures VerdictOf(e).AllBusy? ==> authenticated && !holding && query.asked == old(query.asked) + 1
    ensures authenticated ==> query.asked == old(query.asked) + 1
    ensures conn.calm && Authenticated(b, old(conn.inbox)) ==> authenticated
    ensures VerdictOf(e).Rejected? || cause.Some? || VerdictOf(e).Relayed? ==> authenticated && holding
    ensures VerdictOf(e).Rejected? ==> FailsFirst(b, old(conn.inbox), VerdictOf(e).reason)
    ensures forall refusal | conn.calm && holding && FailsFirst(b, old(conn.inbox), refusal) ::
      VerdictOf(e) == Rejected(refusal)
    ensures upstream.outbox != [] || cause.Some? || VerdictOf(e).Relayed? ==>
      Admitted(b, old(conn.inbox)) && upstream.outbox <= Frame(Forwarded(b, old(conn.inbox)))
    ensures VerdictOf(e).Relayed? ==>
      && upstream.outbox == Frame(Forwarded(b, old(conn.inbox)))
      && old(upstream.inbox) == Frame(VerdictOf(e).payload) + upstream.inbox
    ensures conn.calm && upstream.calm && Admitted(b, old(conn.inbox)) ==>
      Expected(VerdictOf(e), holding, old(upstream.inbox))
  {
    hide Waiting, FirstPayload, Frame, Oversized;
    authenticated, holding, cause := false, false, None;
    var supplied, count := RecvExact(conn, |b.preface|);
    if supplied.Err? {
      return Failed, authenticated, holding, cause;
    }
    if supplied.value != b.preface {
      e := SendVerdict(conn, b, Stranger);
      return;
    }
    authenticated := true;
    holding := query.TryAcquire();
    if !holding {
      e := SendAndAwait(conn, b, AllBusy);
      return;
    }
    ghost var raw;
    e, raw, cause := TryRequest(conn, upstream, b);
  }

  /** The handler of every exception but a write error. */
  method Report(conn: Socket, b: Bridge, authenticated: bool) returns (complete: bool)
    requires conn.outbox == []
    modifies conn`inbox, conn`outbox, conn`raised
    ensures Escaped(b, if complete then Sent(FailedSafely) else CutShort(FailedSafely), conn.outbox)
    ensures conn.calm ==> complete
  {
    hide Escaped;
    var e := SendVerdict(conn, b, FailedSafely);
    complete := e.Sent?;
    if complete && authenticated {
      AwaitClientClose(conn);
    }
  }

  /** `_relay_client`: at most one frame goes downstream, and it is the daemon's payload or
      the report of the verdict; each slot is given back exactly once, however it ends. */
  method RelayClient(conn: Socket, upstream: Socket, b: Bridge, query: Slots, auth: Slots?)
    returns (v: Verdict, complete: bool, ghost cause: Option<FrameError>)
    requires conn != upstream && upstream.outbox == [] && conn.outbox == [] && query != auth
    modifies conn, upstream, query, auth
    ensures conn.closed
    ensures query.given - old(query.given) == query.taken - old(query.taken) <= 1
    ensures auth != null ==> auth.given == old(auth.given) + 1 && auth.taken == old(auth.taken)
    ensures conn.outbox <= Frame(PayloadOf(b, v)) && (complete <==> conn.outbox == Frame(PayloadOf(b, v)))
    ensures Judged(v, cause)
    ensures cause.Some? ==> ToldFrame(cause.value, old(upstream.raised), upstream.raised)
    ensures v.Relayed? ==> old(upstream.inbox) == Frame(v.payload) + upstream.inbox
    ensures upstream.outbox != [] || cause.Some? || v.Relayed? ==>
      Admitted(b, old(conn.inbox)) && upstream.outbox <= Frame(Forwarded(b, old(conn.inbox)))
    ensures v.AllBusy? ==> query.asked == old(query.asked) + 1 && query.taken == old(query.taken)
    ensures conn.calm && Authenticated(b, old(conn.inbox)) ==> query.asked == old(query.asked) + 1
    ensures v.Rejected? || cause.Some? || v.Relayed? ==> query.taken == old(query.taken) + 1
    ensures v.Rejected? ==> FailsFirst(b, old(conn.inbox), v.reason)
    ensures forall refusal | conn.calm && query.taken > old(query.taken) && FailsFirst(b, old(conn.inbox), refusal) ::
      v == Rejected(refusal)
    ensures !Authenticated(b, old(conn.inbox)) ==> v.Stranger? || v.FailedSafely?
    ensures conn.calm ==> complete
    ensures conn.calm && upstream.calm && Admitted(b, old(conn.inbox)) ==>
      Expected(v, query.taken > old(query.taken), old(upstream.inbox))
  {
    hide Waiting, FirstPayload, Frame, Oversized, Expected;
    var e, authenticated, holding;
    e, authenticated, holding, cause := TryRelay(conn, upstream, b, query);
    v, complete := VerdictOf(e), e.Sent?;
    if e.Failed? {
      complete := Report(conn, b, authenticated);
    }
    conn.Close();
    if holding {
      query.Release();
    }
    if auth != null {
      auth.Release();
    }
  }

  /** Main result, across both hops: if the daemon started a frame for p and the client
      completed a frame q, then either q is p, or q is the bridge's own report and the
      verdict says so. Nothing truncated or spliced is ever taken for an answer. */
  lemma TwoHops(b: Bridge, v: Verdict, p: Body, escaped: nat, arrived: seq<byte>, left: seq<byte>,
                forwarded: nat, received: seq<byte>, q: seq<byte>, rest: seq<byte>)
    requires escaped <= |Frame(p)| && arrived <= Frame(p)[..escaped]
    requires v.Relayed? ==> arrived == Frame(v.payload) + left
    requires forwarded <= |Frame(PayloadOf(b, v))| && received <= Frame(PayloadOf(b, v))[..forwarded]
    requires |q| < LENGTHS && received == Frame(q) + rest
    ensures rest == [] && q == if v.Relayed? then p else b.report(v)
    ensures v.Relayed? ==> left == [] && escaped == |Frame(p)|
  {
    PayloadOrError(PayloadOf(b, v), forwarded, received, q, rest);
    if v.Relayed? {
      PayloadOrError(p, escaped, arrived, v.payload, left);
    }
  }
}
