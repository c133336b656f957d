/**
 Length-prefixed frames over sockets that may split, delay or drop anything: an
 unsigned 64-bit big-endian length, then the payload. The sending and receiving loops
 of the daemon and its client, and the handler of one daemon connection.
 */
module Framing {
  import opened Basics

  const MAX_MSG := 10 * 1024 * 1024
  const MAX_RESPONSE := 512 * 1024 * 1024
  const LENGTHS := 0x1_0000_0000_0000_0000

  /** A payload that a response frame may carry. */
  type Body = b: seq<byte> | 0 < |b| <= MAX_RESPONSE witness [0]

  // --- The header --------------------------------------------------------------------

  function BigEndian(n: nat, width: nat): (bs: seq<byte>)
    ensures |bs| == width
  {
    if width == 0 then [] else BigEndian(n / 256, width - 1) + [n % 256]
  }

  function Number(bs: seq<byte>): nat {
    if bs == [] then 0 else 256 * Number(bs[..|bs| - 1]) + bs[|bs| - 1]
  }

  function Power(width: nat): (r: nat)
    ensures r > 0
  {
    if width == 0 then 1 else 256 * Power(width - 1)
  }

  lemma {:induction false} NumberOfBigEndian(n: nat, width: nat)
    requires n < Power(width)
    ensures Number(BigEndian(n, width)) == n
  {
    if width > 0 {
      NumberOfBigEndian(n / 256, width - 1);
      assert BigEndian(n, width)[..width - 1] == BigEndian(n / 256, width - 1);
    }
  }

  lemma {:induction false} BigEndianOfNumber(bs: seq<byte>)
    ensures Number(bs) < Power(|bs|)
    ensures BigEndian(Number(bs), |bs|) == bs
  {
    if bs != [] {
      var front, last := bs[..|bs| - 1], bs[|bs| - 1];
      BigEndianOfNumber(front);
      assert Number(bs) / 256 == Number(front) && Number(bs) % 256 == last;
      assert front + [last] == bs;
    }
  }

  lemma PowerEight()
    ensures Power(8) == LENGTHS
  {
    assert Power(4) == 0x1_0000_0000;
  }

  function Header(n: nat): (bs: seq<byte>)
    ensures |bs| == 8
  {
    BigEndian(n, 8)
  }

  function Frame(payload: seq<byte>): seq<byte> {
    Header(|payload|) + payload
  }

  lemma HeaderRoundTrip(n: nat, bs: seq<byte>)
    requires n < LENGTHS && |bs| == 8
    ensures Number(Header(n)) == n
    ensures Number(bs) < LENGTHS && Header(Number(bs)) == bs
    ensures Number(bs) == 0x1_0000_0000_0000 * Pair(bs, 0) + 0x1_0000_0000 * Pair(bs, 2) +
                          0x1_0000 * Pair(bs, 4) + Pair(bs, 6)
  {
    PowerEight();
    NumberOfEight(bs);
    NumberOfBigEndian(n, 8);
    BigEndianOfNumber(bs);
  }

  /** Two bytes, the more significant first. */
  function Pair(bs: seq<byte>, k: nat): int
    requires k + 2 <= |bs|
  {
    0x100 * (bs[k] as int) + bs[k + 1] as int
  }

  lemma NumberOfTwo(bs: seq<byte>, k: nat)
    requires k + 2 <= |bs|
    ensures Number(bs[..k + 2]) == 0x1_0000 * Number(bs[..k]) + Pair(bs, k)
  {
    assert bs[..k + 2][..k + 1] == bs[..k + 1] && bs[..k + 1][..k] == bs[..k];
  }

  /** The bytes of a header, the most significant first. */
  lemma NumberOfEight(bs: seq<byte>)
    requires |bs| == 8
    ensures Number(bs) == 0x1_0000_0000_0000 * Pair(bs, 0) + 0x1_0000_0000 * Pair(bs, 2) +
                          0x1_0000 * Pair(bs, 4) + Pair(bs, 6)
  {
    hide Number, Pair;
    assert Number(bs[..0]) == 0 by {
      NumberOfNone();
      assert bs[..0] == [];
    }
    NumberOfTwo(bs, 0);
    NumberOfTwo(bs, 2);
    NumberOfTwo(bs, 4);
    NumberOfTwo(bs, 6);
    assert bs[..8] == bs;
  }

  lemma NumberOfNone()
    ensures Number([]) == 0
  {
  }

  /** A frame is decoded in one way only: no frame is a proper prefix of another, and
      the bytes that follow it are untouched. */
  lemma FramePrefixFree(p: seq<byte>, q: seq<byte>, after: seq<byte>, rest: seq<byte>)
    requires |p| < LENGTHS && |q| < LENGTHS
    requires Frame(p) + after == Frame(q) + rest
    ensures p == q && after == rest
  {
    var stream := Frame(p) + after;
    assert stream[..8] == Header(|p|);
    assert stream[..8] == Header(|q|) by {
      assert (Frame(q) + rest)[..8] == Header(|q|);
    }
    HeaderRoundTrip(|p|, Header(|p|));
    HeaderRoundTrip(|q|, Header(|q|));
    assert p == stream[8..8 + |p|];
    assert q == (Frame(q) + rest)[8..8 + |q|];
    assert after == stream[8 + |p|..];
    assert rest == (Frame(q) + rest)[8 + |q|..];
  }

  // --- Sockets -----------------------------------------------------------------------

  /** TimeoutError; ConnectionError, because the peer closed after so many bytes or because
      the connection was reset or refused; FileNotFoundError; any other OSError. */
  datatype IoError = TimedOut | Dropped(received: nat) | Reset | Missing | OtherOs

  /** `inbox` is what will still arrive before the peer goes quiet; `outbox` is what has
      escaped; `raised` is the last error of an operation. A calm socket never errs, though
      it still splits as it likes. */
  class Socket {
    const calm: bool
    var inbox: seq<byte>
    var outbox: seq<byte>
    var closed: bool
    ghost var raised: Option<IoError>

    constructor (calm: bool, inbox: seq<byte>)
      ensures this.calm == calm && this.inbox == inbox && outbox == [] && !closed && raised == None
    {
      this.calm, this.inbox, this.outbox, this.closed := calm, inbox, [], false;
      this.raised := None;
    }

    /** An operation fails, if it can: with any error of the operating system. */
    method Fail() returns (error: Option<IoError>)
      modifies this`raised
      ensures if error.None? then raised == old(raised) else raised == error && !calm && !error.value.Dropped?
    {
      error := *;
      if calm || (error.Some? && error.value.Dropped?) {
        error := None;
      }
      if error.Some? {
        raised := error;
      }
    }

    /** One `recv`: some of what is there; nothing means the peer has closed. */
    method Recv(limit: nat) returns (r: Result<seq<byte>, IoError>)
      requires limit > 0
      modifies this`inbox, this`raised
      ensures r.Ok? ==> |r.value| <= limit && old(inbox) == r.value + inbox && (r.value == [] ==> inbox == [])
      ensures r.Ok? ==> raised == old(raised)
      ensures r.Err? ==> inbox == old(inbox) && raised == Some(r.error) && !calm && !r.error.Dropped?
    {
      var error := Fail();
      if error.Some? {
        return Err(error.value);
      }
      var n: int := *;
      if n <= 0 || n > limit || n > |inbox| {
        n := Min(limit, |inbox|);
      }
      r := Ok(inbox[..n]);
      inbox := inbox[n..];
    }

    /** One `send`: how much escaped; an error means none of it did. */
    method Send(data: seq<byte>) returns (r: Result<nat, IoError>)
      requires data != []
      modifies this`outbox, this`raised
      ensures r.Ok? ==> r.value <= |data| && outbox == old(outbox) + data[..r.value] && (calm ==> r.value > 0)
      ensures r.Ok? ==> raised == old(raised)
      ensures r.Err? ==> outbox == old(outbox) && raised == Some(r.error) && !calm && !r.error.Dropped?
    {
      var error := Fail();
      if error.Some? {
        return Err(error.value);
      }
      var n: int := *;
      if n < 0 || n > |data| || (n == 0 && calm) {
        n := |data|;
      }
      r := Ok(n);
      outbox := outbox + data[..n];
    }

    method Close()
      modifies this`closed
      ensures closed
    {
      closed := true;
    }
  }

  /** An error is what the socket raised, or that the peer closed too early. */
  ghost predicate Told(error: IoError, before: Option<IoError>, after: Option<IoError>) {
    if error.Dropped? then after == before else after == Some(error)
  }

  /** What has been read of `before` when `now` is left. */
  predicate Consumed(before: seq<byte>, now: seq<byte>, count: nat) {
    count <= |before| && now == before[count..]
  }

  // --- Receiving ---------------------------------------------------------------------

  /** `_recv_exact`: exactly `size` bytes, or an error with fewer bytes gone. */
  method RecvExact(conn: Socket, size: nat) returns (r: Result<seq<byte>, IoError>, ghost count: nat)
    modifies conn`inbox, conn`raised
    ensures Consumed(old(conn.inbox), conn.inbox, count)
    ensures r.Ok? ==> count == size && r.value == old(conn.inbox)[..size] && conn.raised == old(conn.raised)
    ensures r.Err? ==> count < size && Told(r.error, old(conn.raised), conn.raised)
    ensures r.Err? && r.error.Dropped? ==> r.error.received == count && conn.inbox == []
    ensures conn.calm ==> (r.Ok? <==> size <= |old(conn.inbox)|) && (r.Err? ==> r.error.Dropped?)
  {
    var data: seq<byte> := [];
    count := 0;
    while |data| < size
      invariant count == |data| <= size
      invariant old(conn.inbox) == data + conn.inbox && conn.raised == old(conn.raised)
      decreases size - |data|
    {
      var chunk := conn.Recv(size - |data|);
      if chunk.Err? {
        return Err(chunk.error), count;
      } else if chunk.value == [] {
        return Err(Dropped(|data|)), count;
      }
      data := data + chunk.value;
      count := |data|;
    }
    return Ok(data), count;
  }

  datatype FrameError = Io(error: IoError) | BadSize

  ghost predicate ToldFrame(error: FrameError, before: Option<IoError>, after: Option<IoError>) {
    if error.BadSize? then after == before else Told(error.error, before, after)
  }

  /** A whole valid frame is waiting. */
  ghost predicate Waiting(inbox: seq<byte>, maximum: nat) {
    |inbox| >= 8 && 0 < Number(inbox[..8]) <= maximum && |inbox| >= 8 + Number(inbox[..8])
  }

  /** The payload of the frame that is waiting. */
  ghost function FirstPayload(inbox: seq<byte>, maximum: nat): seq<byte>
    requires Waiting(inbox, maximum)
  {
    inbox[8..8 + Number(inbox[..8])]
  }

  ghost predicate Oversized(inbox: seq<byte>, maximum: nat) {
    |inbox| >= 8 && (Number(inbox[..8]) == 0 || Number(inbox[..8]) > maximum)
  }

  method RecvSize(conn: Socket, maximum: nat) returns (r: Result<nat, FrameError>)
    modifies conn`inbox, conn`raised
    ensures r.Ok? ==> 0 < r.value <= maximum && r.value < LENGTHS && old(conn.inbox) == Header(r.value) + conn.inbox
    ensures if r.Ok? then conn.raised == old(conn.raised) else ToldFrame(r.error, old(conn.raised), conn.raised)
    ensures r == Err(BadSize) ==> Oversized(old(conn.inbox), maximum)
    ensures conn.calm && r.Err? && !Oversized(old(conn.inbox), maximum) ==> r.error.Io? && r.error.error.Dropped?
    ensures conn.calm && Oversized(old(conn.inbox), maximum) ==> r == Err(BadSize)
    ensures conn.calm ==> (r.Ok? <==> |old(conn.inbox)| >= 8 && 0 < Number(old(conn.inbox)[..8]) <= maximum)
  {
    var raw, count := RecvExact(conn, 8);
    if raw.Err? {
      return Err(Io(raw.error));
    }
    HeaderRoundTrip(0, raw.value);
    var size := Number(raw.value);
    if size == 0 || size > maximum {
      return Err(BadSize);
    }
    return Ok(size);
  }

  /** The payload, in chunks of at most 65536 bytes. */
  method RecvChunks(conn: Socket, size: nat) returns (r: Result<seq<byte>, IoError>)
    modifies conn`inbox, conn`raised
    ensures r.Ok? ==> |r.value| == size && old(conn.inbox) == r.value + conn.inbox
    ensures if r.Ok? then conn.raised == old(conn.raised) else Told(r.error, old(conn.raised), conn.raised)
    ensures conn.calm ==> (r.Ok? <==> size <= |old(conn.inbox)|) && (r.Err? ==> r.error.Dropped?)
  {
    var data: seq<byte> := [];
    while |data| < size
      invariant |data| <= size && old(conn.inbox) == data + conn.inbox && conn.raised == old(conn.raised)
    {
      var chunk, count := RecvExact(conn, Min(65536, size - |data|));
      if chunk.Err? {
        return Err(chunk.error);
      }
      data := data + chunk.value;
    }
    return Ok(data);
  }

  /** Exactly one payload leaves the inbox, or an error. */
  method RecvFrame(conn: Socket, maximum: nat) returns (r: Result<seq<byte>, FrameError>)
    modifies conn`inbox, conn`raised
    ensures r.Ok? ==> 0 < |r.value| <= maximum && |r.value| < LENGTHS && old(conn.inbox) == Frame(r.value) + conn.inbox
    ensures if r.Ok? then conn.raised == old(conn.raised) else ToldFrame(r.error, old(conn.raised), conn.raised)
    ensures r.Ok? ==> Waiting(old(conn.inbox), maximum) && r.value == FirstPayload(old(conn.inbox), maximum)
    ensures r == Err(BadSize) ==> Oversized(old(conn.inbox), maximum)
    ensures conn.calm && r.Err? && !Oversized(old(conn.inbox), maximum) ==> r.error.Io? && r.error.error.Dropped?
    ensures conn.calm && Oversized(old(conn.inbox), maximum) ==> r == Err(BadSize)
    ensures conn.calm ==> (r.Ok? <==> Waiting(old(conn.inbox), maximum))
  {
    var size := RecvSize(conn, maximum);
    if size.Err? {
      return Err(size.error);
    }
    assert old(conn.inbox)[..8] == Header(size.value);
    HeaderRoundTrip(size.value, Header(size.value));
    var data := RecvChunks(conn, size.value);
    if data.Err? {
      return Err(Io(data.error));
    }
    assert old(conn.inbox) == Frame(data.value) + conn.inbox;
    return Ok(data.value);
  }

  // --- Sending -----------------------------------------------------------------------

  /** `_send_response_frame`: the whole frame, or an error that reports exactly how much
      of it escaped. */
  method SendResponseFrame(conn: Socket, payload: Body) returns (ok: bool, sent: nat)
    modifies conn`outbox, conn`raised
    ensures sent <= |Frame(payload)| && conn.outbox == old(conn.outbox) + Frame(payload)[..sent]
    ensures ok <==> sent == |Frame(payload)|
    ensures conn.calm ==> ok
  {
    var error;
    error, sent := SendParts(conn, payload);
    ok := error.None?;
  }

  /** The header and then the payload. */
  method SendParts(conn: Socket, payload: seq<byte>) returns (error: Option<IoError>, sent: nat)
    modifies conn`outbox, conn`raised
    ensures sent <= |Frame(payload)| && conn.outbox == old(conn.outbox) + Frame(payload)[..sent]
    ensures error.None? <==> sent == |Frame(payload)|
    ensures if error.None? then conn.raised == old(conn.raised)
            else conn.raised == error && !conn.calm && !error.value.Dropped?
  {
    error, sent := SendPart(conn, Header(|payload|));
    if error.Some? {
      assert Frame(payload)[..sent] == Header(|payload|)[..sent];
      return;
    }
    var more;
    error, more := SendPart(conn, payload);
    sent := sent + more;
    assert Frame(payload)[..sent] == Header(|payload|) + payload[..more];
  }

  method SendPart(conn: Socket, part: seq<byte>) returns (error: Option<IoError>, offset: nat)
    modifies conn`outbox, conn`raised
    ensures offset <= |part| && conn.outbox == old(conn.outbox) + part[..offset]
    ensures error.None? <==> offset == |part|
    ensures if error.None? then conn.raised == old(conn.raised)
            else conn.raised == error && !conn.calm && !error.value.Dropped?
  {
    offset := 0;
    while offset < |part|
      invariant offset <= |part| && conn.outbox == old(conn.outbox) + part[..offset]
      invariant conn.raised == old(conn.raised)
    {
      error := conn.Fail();  // the deadline of the whole frame
      if error.Some? {
        return;
      }
      var count := conn.Send(part[offset..]);
      if count.Err? {
        return Some(count.error), offset;
      } else if count.value == 0 {
        conn.raised := Some(Reset);
        return Some(Reset), offset;
      }
      assert part[..offset] + part[offset..][..count.value] == part[..offset + count.value];
      offset := offset + count.value;
    }
    error := None;
  }

  /** Main result: whatever part of one frame escapes, and whatever part of that arrives,
      a receiver that completes a frame has the payload, and nothing is left over. */
  lemma PayloadOrError(p: Body, sent: nat, arrived: seq<byte>, q: seq<byte>, rest: seq<byte>)
    requires sent <= |Frame(p)| && arrived <= Frame(p)[..sent]
    requires |q| < LENGTHS && arrived == Frame(q) + rest
    ensures q == p && rest == [] && sent == |Frame(p)|
  {
    var lost := Frame(p)[|arrived|..];
    assert Frame(p) == arrived + lost;
    assert Frame(p) + [] == Frame(q) + (rest + lost);
    FramePrefixFree(p, q, [], rest + lost);
  }

  // --- One daemon connection -----------------------------------------------------------

  datatype ErrorKind = BusyKind | AuthKind | ConnectionKind | QueryKind

  /** A serialized response is never empty. */
  type Json = b: seq<byte> | b != [] witness [0]

  /** What serialization makes of a response: bytes, or an exception before any byte. */
  datatype Serialized = Encoded(json: Json) | Refuses(kind: ErrorKind)

  /** What a request leads to: a response to serialize, or an exception. */
  datatype Work = Replies(response: Serialized) | Raises(kind: ErrorKind)

  /** The request parser (whether the client speaks the daemon's protocol, or an exception),
      the answer to one that does not, the dispatcher of the others, the kind of a failure to
      receive, the error report for each kind of exception, and the report that replaces an
      oversized response. */
  datatype Daemon = Daemon(
    parse: seq<byte> -> Result<bool, ErrorKind>, mismatch: Serialized, dispatch: seq<byte> -> Work,
    classify: FrameError -> ErrorKind, report: ErrorKind -> Serialized, oversize: Body)

  function Capped(d: Daemon, json: Json): (b: Body)
    ensures |json| <= MAX_RESPONSE ==> b == json
  {
    if |json| > MAX_RESPONSE then d.oversize else json
  }

  /** The request's own response, or the exception that keeps it from having one. */
  function Own(d: Daemon, received: Result<seq<byte>, FrameError>): Result<Body, ErrorKind> {
    match received
    case Err(error) => Err(d.classify(error))
    case Ok(request) => match d.parse(request) {
      case Err(kind) => Err(kind)
      case Ok(spoken) =>
        var work := if spoken then d.dispatch(request) else Replies(d.mismatch);
        if work.Raises? then Err(work.kind)
        else if work.response.Refuses? then Err(work.response.kind) else Ok(Capped(d, work.response.json))
    }
  }

  /** The answer is the request's own response, or the report of its exception; none when
      that cannot be serialized either. */
  function Answer(d: Daemon, received: Result<seq<byte>, FrameError>): Option<Body> {
    match Own(d, received)
    case Ok(body) => Some(body)
    case Err(kind) => if d.report(kind).Encoded? then Some(Capped(d, d.report(kind).json)) else None
  }

  /** The answer is this response, or the report that stands for it when it is too long. */
  ghost predicate Sends(d: Daemon, answer: Option<Body>, json: Json) {
    answer == Some(if |json| <= 512 * 1024 * 1024 then json else d.oversize)
  }

  /** What that is, case by case: a client of another protocol is told so whatever it asks,
      and every exception is reported by its kind. */
  lemma AnswerIs(d: Daemon, request: seq<byte>, json: Json)
    ensures d.parse(request) == Ok(false) && d.mismatch == Encoded(json) ==> Sends(d, Answer(d, Ok(request)), json)
    ensures d.parse(request) == Ok(true) && d.dispatch(request) == Replies(Encoded(json)) ==>
      Sends(d, Answer(d, Ok(request)), json)
    ensures forall kind | d.report(kind) == Encoded(json) ::
      (d.parse(request) == Err(kind) || (d.parse(request) == Ok(true) && d.dispatch(request) == Raises(kind))) ==>
        Sends(d, Answer(d, Ok(request)), json)
    ensures forall kind | d.report(kind) == Encoded(json) ::
      ((d.parse(request) == Ok(true) && d.dispatch(request) == Replies(Refuses(kind))) ||
       (d.parse(request) == Ok(false) && d.mismatch == Refuses(kind))) ==> Sends(d, Answer(d, Ok(request)), json)
    ensures forall error | d.report(d.classify(error)) == Encoded(json) :: Sends(d, Answer(d, Err(error)), json)
  {
  }

  /** How a block ends: with its frame sent, with a write error after so many bytes of it, or
      with any other exception. */
  datatype Outcome = Complete | WriteFailed(sent: nat) | Excepted(kind: ErrorKind)

  /** What has escaped when a block that was to send `frame` ends so. */
  ghost predicate Escaped(o: Outcome, outbox: seq<byte>, frame: seq<byte>) {
    match o
    case Complete => outbox == frame
    case WriteFailed(sent) => sent < |frame| && outbox == frame[..sent]
    case Excepted(_) => outbox == []
  }

  /** `send_response`: an exception of the serialization leaves before the first byte. Nobody
      may call it once a byte of another response has escaped. */
  method SendResponse(conn: Socket, d: Daemon, response: Serialized) returns (o: Outcome)
    requires conn.outbox == []
    modifies conn`outbox, conn`raised
    ensures if response.Refuses? then o == Excepted(response.kind) && conn.outbox == []
            else !o.Excepted? && Escaped(o, conn.outbox, Frame(Capped(d, response.json)))
    ensures conn.calm ==> !o.WriteFailed?
  {
    if response.Refuses? {
      return Excepted(response.kind);
    }
    var ok, sent := SendResponseFrame(conn, Capped(d, response.json));
    return if ok then Complete else WriteFailed(sent);
  }

  /** The `try` block of `handle_client`: whatever leaves it as an exception other than a
      write error leaves it before a byte has escaped. */
  method TryRequest(conn: Socket, d: Daemon) returns (ghost received: Result<seq<byte>, FrameError>, o: Outcome)
    requires conn.outbox == []
    modifies conn`inbox, conn`outbox, conn`raised
    ensures received.Ok? ==>
      Waiting(old(conn.inbox), MAX_MSG) && received.value == FirstPayload(old(conn.inbox), MAX_MSG)
    ensures conn.calm ==> (received.Ok? <==> Waiting(old(conn.inbox), MAX_MSG))
    ensures if Own(d, received).Err? then o == Excepted(Own(d, received).error) && conn.outbox == []
            else !o.Excepted? && Escaped(o, conn.outbox, Frame(Own(d, received).value))
    ensures conn.calm ==> !o.WriteFailed?
  {
    hide Waiting, FirstPayload, Escaped;
    var raw := RecvFrame(conn, MAX_MSG);
    received := raw;
    if raw.Err? {
      return received, Excepted(d.classify(raw.error));
    }
    var spoken := d.parse(raw.value);
    if spoken.Err? {
      return received, Excepted(spoken.error);
    }
    if !spoken.value {
      o := SendResponse(conn, d, d.mismatch);
      return;
    }
    var work := d.dispatch(raw.value);
    if work.Raises? {
      return received, Excepted(work.kind);
    }
    o := SendResponse(conn, d, work.response);
  }

  /** `handle_client`: an exception before the first byte is reported in a frame of its own,
      a failed write is not; so at most one frame is ever started. */
  method HandleClient(conn: Socket, d: Daemon)
    returns (ghost received: Result<seq<byte>, FrameError>, complete: bool)
    requires conn.outbox == []
    modifies conn
    ensures conn.closed
    ensures received.Ok? ==>
      Waiting(old(conn.inbox), MAX_MSG) && received.value == FirstPayload(old(conn.inbox), MAX_MSG)
    ensures conn.calm ==> (received.Ok? <==> Waiting(old(conn.inbox), MAX_MSG))
    ensures match Answer(d, received)
            case None => conn.outbox == [] && !complete
            case Some(answer) => conn.outbox <= Frame(answer) && (complete <==> conn.outbox == Frame(answer))
    ensures conn.calm && Answer(d, received).Some? ==> complete
  {
    hide Waiting, FirstPayload, Own;
    var o;
    received, o := TryRequest(conn, d);
    if o.Excepted? {
      o := SendResponse(conn, d, d.report(o.kind));
    }
    complete := o.Complete?;
    conn.Close();
  }

  /** The reply of an overloaded daemon: only a client that says it understands gets a
      frame, and the reply slot is given back exactly once. */
  method ReplyBusyAndClose(conn: Socket, busyAware: seq<byte> -> bool, busy: Body, slots: Slots)
    requires conn.outbox == []
    modifies conn, slots
    ensures conn.closed && slots.taken == old(slots.taken) && slots.given == old(slots.given) + 1
    ensures conn.outbox <= Frame(busy)
    ensures conn.outbox != [] ==> Waiting(old(conn.inbox), MAX_MSG) && busyAware(FirstPayload(old(conn.inbox), MAX_MSG))
    ensures conn.calm && Waiting(old(conn.inbox), MAX_MSG) && busyAware(FirstPayload(old(conn.inbox), MAX_MSG)) ==>
      conn.outbox == Frame(busy)
  {
    var request := RecvFrame(conn, MAX_MSG);
    if request.Ok? && busyAware(request.value) {
      var ok, sent := SendResponseFrame(conn, busy);
      assert conn.outbox == Frame(busy)[..sent];
    }
    conn.Close();
    slots.Release();
  }

  /** A counting semaphore, as one connection uses it among others: how often it asked for a
      slot, took one and gave one back. */
  class Slots {
    var asked: nat
    var taken: nat
    var given: nat

    constructor ()
      ensures asked == 0 && taken == 0 && given == 0
    {
      asked, taken, given := 0, 0, 0;
    }

    method TryAcquire() returns (ok: bool)
      modifies this
      ensures asked == old(asked) + 1 && taken == old(taken) + (if ok then 1 else 0) && given == old(given)
    {
      asked := asked + 1;
      ok := *;
      if ok {
        taken := taken + 1;
      }
    }

    method Release()
      modifies this
      ensures given == old(given) + 1 && taken == old(taken) && asked == old(asked)
    {
      given := given + 1;
    }
  }
}
