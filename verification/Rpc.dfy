/** RPC messages on a byte stream: framing, dispatch and replies. */
module Rpc {
  import opened Wrappers
  import opened RpcCodes
  import opened Xdr
  import opened Protocol

  const ENCODED_LENGTH := 16

  datatype Message = Message(sequence: int, status: int, cmd: int, body: Bytes)

  predicate Sendable(m: Message) {
    && 0 <= m.sequence < TWO_32 && |m.body| < TWO_32
    && -TWO_31 <= m.status < TWO_31 && -TWO_31 <= m.cmd < TWO_31
  }

  function HeaderValue(m: Message): Value {
    Fields([Number(m.sequence), Number(m.status), Number(m.cmd), Number(|m.body|)])
  }

  /** The 16 bytes of a header, field by field. */
  function HeaderBytes(m: Message): (b: Bytes)
    requires Sendable(m)
    ensures |b| == ENCODED_LENGTH
  {
    Be32(m.sequence) + Be32(Unsigned(m.status)) + Be32(Unsigned(m.cmd)) + Be32(|m.body|)
  }

  /** ... are what the schema-directed codec makes of it. */
  lemma {:induction false} HeaderIsEncoding(m: Message)
    requires Sendable(m)
    ensures Encode(RPC_HEADER, HeaderValue(m)) == Some(HeaderBytes(m))
  {
    var names, handlers, fields := RPC_HEADER.names, RPC_HEADER.handlers, HeaderValue(m).fields;
    assert EncodeMembers(names, handlers, fields, 0) == Some([]);
    assert EncodeMembers(names, handlers, fields, 1) == Some([] + Be32(m.sequence));
    assert EncodeMembers(names, handlers, fields, 2) == Some([] + Be32(m.sequence) + Be32(Unsigned(m.status)));
    assert EncodeMembers(names, handlers, fields, 3)
        == Some([] + Be32(m.sequence) + Be32(Unsigned(m.status)) + Be32(Unsigned(m.cmd)));
    assert EncodeMembers(names, handlers, fields, 4)
        == Some([] + Be32(m.sequence) + Be32(Unsigned(m.status)) + Be32(Unsigned(m.cmd)) + Be32(|m.body|));
    assert [] + Be32(m.sequence) == Be32(m.sequence);
  }

  function MessageBytes(m: Message): Bytes
    requires Sendable(m)
  {
    HeaderBytes(m) + m.body
  }

  function Stream(ms: seq<Message>): Bytes
    requires forall m :: m in ms ==> Sendable(m)
  {
    if ms == [] then [] else MessageBytes(ms[0]) + Stream(ms[1..])
  }

  /** A header read off 16 bytes. */
  datatype Header = Header(sequence: int, status: int, cmd: int, datalen: nat)

  function HeaderOf(b: Bytes): Header
    requires |b| == ENCODED_LENGTH
  {
    Header(FromBe32(b[..4]), Signed(FromBe32(b[4..8]), TWO_31), Signed(FromBe32(b[8..12]), TWO_31), FromBe32(b[12..]))
  }

  lemma {:induction false} HeaderOfIsDecoding(b: Bytes)
    requires |b| == ENCODED_LENGTH
    ensures var h := HeaderOf(b);
            DecodeAll(RPC_HEADER, b) == Ok(Fields([Number(h.sequence), Number(h.status), Number(h.cmd), Number(h.datalen)]))
  {
    var names, handlers, h := RPC_HEADER.names, RPC_HEADER.handlers, HeaderOf(b);
    assert b[4..][..4] == b[4..8] && b[4..][4..] == b[8..];
    assert b[8..][..4] == b[8..12] && b[8..][4..] == b[12..];
    assert b[12..][..4] == b[12..] && b[12..][4..] == [];
    assert DecodeMembers(names, handlers, 0, b) == Ok(([], b));
    assert DecodeMembers(names, handlers, 1, b) == Ok(([] + [Number(h.sequence)], b[4..]));
    assert DecodeMembers(names, handlers, 2, b) == Ok(([] + [Number(h.sequence)] + [Number(h.status)], b[8..]));
    assert DecodeMembers(names, handlers, 3, b)
        == Ok(([] + [Number(h.sequence)] + [Number(h.status)] + [Number(h.cmd)], b[12..]));
    assert DecodeMembers(names, handlers, 4, b)
        == Ok(([] + [Number(h.sequence)] + [Number(h.status)] + [Number(h.cmd)] + [Number(h.datalen)], []));
    assert [] + [Number(h.sequence)] + [Number(h.status)] + [Number(h.cmd)] + [Number(h.datalen)]
        == [Number(h.sequence), Number(h.status), Number(h.cmd), Number(h.datalen)];
    assert RPC_HEADER.Arity() == 4;
    assert Decode(RPC_HEADER, b).Ok?;
  }

  // ---------------------------------------------------------------- receiving

  /** The next request on the stream and what follows it: replies are skipped.  None when the
      stream ends first. */
  function Receive(stream: Bytes): Option<(Message, Bytes)>
    decreases |stream|
  {
    if |stream| < ENCODED_LENGTH then None
    else
      var h := HeaderOf(stream[..ENCODED_LENGTH]);
      var end := ENCODED_LENGTH + h.datalen;
      if |stream| < end then None
      else if h.status == RPC_PENDING
      then Some((Message(h.sequence, h.status, h.cmd, stream[ENCODED_LENGTH..end]), stream[end..]))
      else Receive(stream[end..])
  }

  lemma {:induction false} HeaderInverse(m: Message)
    requires Sendable(m)
    ensures HeaderOf(HeaderBytes(m)) == Header(m.sequence, m.status, m.cmd, |m.body|)
  {
    var b := HeaderBytes(m);
    Be32Inverse(m.sequence);
    Be32Inverse(Unsigned(m.status));
    Be32Inverse(Unsigned(m.cmd));
    Be32Inverse(|m.body|);
    assert b[..4] == Be32(m.sequence) && b[4..8] == Be32(Unsigned(m.status));
    assert b[8..12] == Be32(Unsigned(m.cmd)) && b[12..] == Be32(|m.body|);
  }

  /** One message at the head of the stream. */
  lemma {:induction false} ReceiveOne(m: Message, rest: Bytes)
    requires Sendable(m)
    ensures Receive(MessageBytes(m) + rest) == if m.status == RPC_PENDING then Some((m, rest)) else Receive(rest)
  {
    var stream, end := MessageBytes(m) + rest, ENCODED_LENGTH + |m.body|;
    HeaderInverse(m);
    assert stream[..ENCODED_LENGTH] == HeaderBytes(m);
    assert stream[ENCODED_LENGTH..end] == m.body;
    assert stream[end..] == rest;
  }

  // ---------------------------------------------------------------- answering

  /** What a handler does: return an object or None, or raise an RPC error or anything else. */
  datatype Reaction = Returns(value: Value) | ReturnsNone | RaisesRpc(code: int) | RaisesOther

  /** `react` is told how many requests were handled before, so that a handler may keep state. */
  datatype Handler = Handler(request: Option<Schema>, reply: Option<Schema>, react: (nat, Value) -> Reaction)

  type Handlers = map<int, Handler>

  /** The reply to a request, or an exception that escapes from dispatch(). */
  datatype AnyAnswer = Answer(status: int, body: Bytes) | Escapes

  /** An answer that fits a message, with an empty body on an error. */
  type Answer = a: AnyAnswer |
    a.Answer? ==> -TWO_31 <= a.status < TWO_31 && |a.body| < TWO_32 && (a.status != 0 ==> a.body == [])
    witness Escapes

  type Answers = (nat, Message) -> Answer

  function AnswerTo(handlers: Handlers, turn: nat, request: Message): Answer {
    if request.cmd !in handlers then Answer(PROCEDURE_UNAVAILABLE, [])
    else
      var handler := handlers[request.cmd];
      var arg := if handler.request.Some? then DecodeAll(handler.request.value, request.body) else Ok(Nothing);
      if arg.Err? then Answer(ENCODING_ERROR, [])
      else
        match handler.react(turn, arg.value)
        case RaisesOther => Escapes
        case RaisesRpc(code) => if -TWO_31 <= code < TWO_31 then Answer(code, []) else Escapes
        case ReturnsNone => if handler.reply.None? then Answer(0, []) else Escapes
        case Returns(value) =>
          if handler.reply.None? then Escapes
          else
            match Encode(handler.reply.value, value)
            case None => Escapes
            case Some(b) => if |b| < TWO_32 then Answer(0, b) else Escapes
  }

  function AnswersOf(handlers: Handlers): Answers {
    (turn, request) => AnswerTo(handlers, turn, request)
  }

  function ReplyTo(request: Message, a: Answer): Message
    requires a.Answer?
  {
    Message(request.sequence, a.status, request.cmd, a.body)
  }

  /** A request that was read off the stream can be answered under the same numbers. */
  predicate Addressable(request: Message) {
    0 <= request.sequence < TWO_32 && -TWO_31 <= request.cmd < TWO_31
  }

  lemma {:induction false} ReceivedIsAddressable(stream: Bytes)
    requires Receive(stream).Some?
    ensures Addressable(Receive(stream).value.0) && Receive(stream).value.0.status == RPC_PENDING
    ensures |Receive(stream).value.1| < |stream|
    decreases |stream|
  {
    var h := HeaderOf(stream[..ENCODED_LENGTH]);
    if h.status != RPC_PENDING {
      ReceivedIsAddressable(stream[ENCODED_LENGTH + h.datalen..]);
    }
  }

  /** One call of dispatch() on a stream. */
  datatype Turn =
    | Closed
    | Crashed(request: Message, rest: Bytes)
    | Replied(request: Message, reply: Bytes, rest: Bytes)

  function TurnOf(answers: Answers, turn: nat, stream: Bytes): (t: Turn)
    ensures !t.Closed? ==> |t.rest| < |stream|
  {
    match Receive(stream)
    case None => Closed
    case Some((request, rest)) =>
      ReceivedIsAddressable(stream);
      var answer := answers(turn, request);
      if answer.Escapes? then Crashed(request, rest) else Replied(request, MessageBytes(ReplyTo(request, answer)), rest)
  }

  /** Serving a stream to its end: the requests handled, the bytes written, and whether an
      exception cut it short. */
  datatype Service = Service(handled: seq<Message>, written: Bytes, crashed: bool)

  function Serve(answers: Answers, turn: nat, stream: Bytes): Service
    decreases |stream|
  {
    match TurnOf(answers, turn, stream)
    case Closed => Service([], [], false)
    case Crashed(request, _) => Service([request], [], true)
    case Replied(request, reply, rest) =>
      var later := Serve(answers, turn + 1, rest);
      Service([request] + later.handled, reply + later.written, later.crashed)
  }

  lemma {:induction false} ServeUnfolds(answers: Answers, turn: nat, stream: Bytes)
    ensures var t, service := TurnOf(answers, turn, stream), Serve(answers, turn, stream);
            && (t.Closed? ==> service == Service([], [], false))
            && (t.Crashed? ==> service == Service([t.request], [], true))
            && (t.Replied? ==>
                  var later := Serve(answers, turn + 1, t.rest);
                  service == Service([t.request] + later.handled, t.reply + later.written, later.crashed))
  {
  }

  // ---------------------------------------------------------------- the connection

  /** The peer's socket: the bytes still to come, in pieces that recv() chooses. */
  class Socket {
    var incoming: Bytes
    var outgoing: Bytes
    var closed: bool

    constructor (incoming: Bytes)
      ensures this.incoming == incoming && outgoing == [] && !closed
    {
      this.incoming, outgoing, closed := incoming, [], false;
    }

    /** At least one byte and at most `count`, or nothing at the end of the stream. */
    method Recv(count: nat) returns (chunk: Bytes)
      requires count > 0
      modifies this`incoming
      ensures |chunk| <= count && old(incoming) == chunk + incoming
      ensures chunk == [] <==> old(incoming) == []
    {
      if incoming == [] {
        return [];
      }
      var n :| 1 <= n <= count && n <= |incoming|;
      chunk := incoming[..n];
      incoming := incoming[n..];
    }
  }

  lemma {:induction false} WrittenSoFar(a: Bytes, b: Bytes, c: Bytes)
    ensures a + (b + c) == (a + b) + c
  {
  }

  /** A service of which `handled` requests and the bytes `written` are behind and `later` ahead. */
  ghost predicate Progress(service: Service, written: Bytes, handled: nat, later: Service) {
    && service.written == written + later.written
    && service.crashed == later.crashed && |service.handled| == handled + |later.handled|
  }

  lemma {:induction false} ProgressMade(service: Service, written: Bytes, handled: nat, request: Message, reply: Bytes, next: Service)
    requires Progress(service, written, handled, Service([request] + next.handled, reply + next.written, next.crashed))
    ensures Progress(service, written + reply, handled + 1, next)
  {
    WrittenSoFar(written, reply, next.written);
  }

  datatype Served = Handled(request: Message) | ConnectionFailure | HandlerCrash

  class RpcConnection {
    const sock: Socket

    constructor (sock: Socket)
      ensures this.sock == sock
    {
      this.sock := sock;
    }

    /** read_bytes(): exactly `count` bytes, however they arrive; a short stream is a failure. */
    method ReadBytes(count: nat) returns (data: Option<Bytes>)
      modifies sock
      ensures sock.outgoing == old(sock.outgoing)
      ensures if count <= |old(sock.incoming)|
              then data == Some(old(sock.incoming)[..count]) && sock.incoming == old(sock.incoming)[count..]
                   && sock.closed == old(sock.closed)
              else data == None && sock.closed
    {
      var left, bufs := count, [];
      while left > 0
        invariant 0 <= left <= count && |bufs| == count - left
        invariant old(sock.incoming) == bufs + sock.incoming
        invariant sock.outgoing == old(sock.outgoing) && sock.closed == old(sock.closed)
      {
        var chunk := sock.Recv(left);
        if chunk == [] {
          sock.closed := true;
          return None;
        }
        left := left - |chunk|;
        bufs := bufs + chunk;
      }
      assert old(sock.incoming)[..count] == bufs && old(sock.incoming)[count..] == sock.incoming;
      return Some(bufs);
    }

    /** RPCHeader.decode() */
    method DecodeHeader(buf: Bytes) returns (h: Header)
      requires |buf| == ENCODED_LENGTH
      ensures h == HeaderOf(buf)
    {
      HeaderOfIsDecoding(buf);
      var decoded := DecodeStruct(RPC_HEADER, buf);
      var fields := decoded.value.fields;
      h := Header(fields[0].n, fields[1].n, fields[2].n, fields[3].n);
    }

    /** _receive(): the next request. */
    method ReceiveRequest() returns (r: Option<Message>)
      modifies sock
      ensures sock.outgoing == old(sock.outgoing)
      ensures match Receive(old(sock.incoming))
              case Some((request, rest)) => r == Some(request) && sock.incoming == rest && sock.closed == old(sock.closed)
              case None => r == None && sock.closed
    {
      while true
        invariant sock.outgoing == old(sock.outgoing) && sock.closed == old(sock.closed)
        invariant Receive(sock.incoming) == Receive(old(sock.incoming))
        decreases |sock.incoming|
      {
        ghost var stream := sock.incoming;
        var hdr := ReadBytes(ENCODED_LENGTH);
        if hdr.None? {
          return None;
        }
        var h := DecodeHeader(hdr.value);
        var data := ReadBytes(h.datalen);
        if data.None? {
          return None;
        }
        assert stream[ENCODED_LENGTH..][..h.datalen] == stream[ENCODED_LENGTH..ENCODED_LENGTH + h.datalen];
        assert stream[ENCODED_LENGTH..][h.datalen..] == stream[ENCODED_LENGTH + h.datalen..];
        if h.status == RPC_PENDING {
          return Some(Message(h.sequence, h.status, h.cmd, data.value));
        }
      }
    }

    /** _reply() */
    method Reply(request: Message, a: Answer)
      requires a.Answer? && Addressable(request)
      modifies sock
      ensures sock.incoming == old(sock.incoming) && sock.closed == old(sock.closed)
      ensures sock.outgoing == old(sock.outgoing) + MessageBytes(ReplyTo(request, a))
    {
      var reply := ReplyTo(request, a);
      HeaderIsEncoding(reply);
      var hdr := EncodeStruct(RPC_HEADER, HeaderValue(reply));
      sock.outgoing := sock.outgoing + (hdr.value + a.body);
    }

    /** dispatch(): one request handled and answered, or the connection found closed. */
    method Dispatch(handlers: Handlers, turn: nat) returns (served: Served)
      modifies sock
      ensures var t := TurnOf(AnswersOf(handlers), turn, old(sock.incoming));
              && (t.Closed? ==> served == ConnectionFailure && sock.closed && sock.outgoing == old(sock.outgoing))
              && (!t.Closed? ==> sock.incoming == t.rest && sock.closed == old(sock.closed))
              && (t.Crashed? ==> served == HandlerCrash && sock.outgoing == old(sock.outgoing))
              && (t.Replied? ==> served == Handled(t.request) && sock.outgoing == old(sock.outgoing) + t.reply)
    {
      var request := ReceiveRequest();
      if request.None? {
        return ConnectionFailure;
      }
      ReceivedIsAddressable(old(sock.incoming));
      var answer := React(handlers, turn, request.value);
      if answer.Escapes? {
        return HandlerCrash;
      }
      Reply(request.value, answer);
      return Handled(request.value);
    }

    /** Looking up the handler, decoding for it, calling it and encoding what it returns. */
    method React(handlers: Handlers, turn: nat, request: Message) returns (a: Answer)
      ensures a == AnswerTo(handlers, turn, request)
    {
      if request.cmd !in handlers {
        return Answer(PROCEDURE_UNAVAILABLE, []);
      }
      var handler := handlers[request.cmd];
      var arg: Result<Value, DecodeError> := Ok(Nothing);
      if handler.request.Some? {
        arg := DecodeStruct(handler.request.value, request.body);
      }
      if arg.Err? {
        return Answer(ENCODING_ERROR, []);
      }
      match handler.react(turn, arg.value)
      case RaisesOther => return Escapes;
      case RaisesRpc(code) => return if -TWO_31 <= code < TWO_31 then Answer(code, []) else Escapes;
      case ReturnsNone => return if handler.reply.None? then Answer(0, []) else Escapes;
      case Returns(value) =>
        if handler.reply.None? {
          return Escapes;
        }
        var ret := EncodeStruct(handler.reply.value, value);
        return if ret.Some? && |ret.value| < TWO_32 then Answer(0, ret.value) else Escapes;
    }

    /** The control thread: dispatch until the connection closes or a handler crashes. */
    method DispatchAll(handlers: Handlers) returns (handled: nat, crashed: bool)
      modifies sock
      ensures var service := Serve(AnswersOf(handlers), 0, old(sock.incoming));
              && sock.outgoing == old(sock.outgoing) + service.written
              && crashed == service.crashed
              && handled == |service.handled| - (if crashed then 1 else 0)
      ensures !crashed ==> sock.closed
    {
      ghost var answers := AnswersOf(handlers);
      ghost var service := Serve(answers, 0, sock.incoming);
      ghost var later, written := service, [];
      handled := 0;
      while true
        invariant later == Serve(answers, handled, sock.incoming)
        invariant sock.outgoing == old(sock.outgoing) + written
        invariant Progress(service, written, handled, later)
        decreases |sock.incoming|
      {
        ghost var t := TurnOf(answers, handled, sock.incoming);
        ServeUnfolds(answers, handled, sock.incoming);
        var served := Dispatch(handlers, handled);
        if served.ConnectionFailure? {
          return handled, false;
        }
        if served.HandlerCrash? {
          return handled, true;
        }
        ghost var next := Serve(answers, handled + 1, t.rest);
        ProgressMade(service, written, handled, t.request, t.reply, next);
        WrittenSoFar(old(sock.outgoing), written, t.reply);
        later := next;
        written := written + t.reply;
        handled := handled + 1;
      }
    }
  }

  // ---------------------------------------------------------------- any messages, any chunks

  function Requests(ms: seq<Message>): seq<Message> {
    if ms == [] then []
    else (if ms[0].status == RPC_PENDING then [ms[0]] else []) + Requests(ms[1..])
  }

  /** What serving a list of requests comes to. */
  function ServiceOf(answers: Answers, turn: nat, requests: seq<Message>): Service
    requires forall m :: m in requests ==> Sendable(m)
    decreases |requests|
  {
    if requests == [] then Service([], [], false)
    else
      assert requests[0] in requests && Sendable(requests[0]);
      var answer := answers(turn, requests[0]);
      if answer.Escapes? then Service([requests[0]], [], true)
      else
        var later := ServiceOf(answers, turn + 1, requests[1..]);
        Service([requests[0]] + later.handled, MessageBytes(ReplyTo(requests[0], answer)) + later.written, later.crashed)
  }

  lemma {:induction false} RequestsAreMessages(ms: seq<Message>)
    ensures forall m :: m in Requests(ms) ==> m in ms && m.status == RPC_PENDING
  {
    if ms != [] {
      RequestsAreMessages(ms[1..]);
    }
  }

  /** One request at the head of the stream. */
  lemma {:induction false} ServeRequest(answers: Answers, turn: nat, m: Message, rest: Bytes)
    requires Sendable(m) && m.status == RPC_PENDING
    ensures TurnOf(answers, turn, MessageBytes(m) + rest) ==
            if answers(turn, m).Escapes? then Crashed(m, rest)
            else Replied(m, MessageBytes(ReplyTo(m, answers(turn, m))), rest)
  {
    ReceiveOne(m, rest);
  }

  /** A reply at the head of the stream is skipped. */
  lemma {:induction false} ServeSkipsReply(answers: Answers, turn: nat, m: Message, rest: Bytes)
    requires Sendable(m) && m.status != RPC_PENDING
    ensures Serve(answers, turn, MessageBytes(m) + rest) == Serve(answers, turn, rest)
  {
    ReceiveOne(m, rest);
    assert TurnOf(answers, turn, MessageBytes(m) + rest) == TurnOf(answers, turn, rest);
  }

  /** Whatever messages arrive, and whatever unfinished one comes last: the requests among them
      are served, in order, and the replies among them are skipped. */
  lemma {:induction false} ServesExactlyTheRequests(answers: Answers, turn: nat, ms: seq<Message>, tail: Bytes)
    requires forall m :: m in ms ==> Sendable(m)
    requires Receive(tail) == None
    ensures forall m :: m in Requests(ms) ==> Sendable(m)
    ensures Serve(answers, turn, Stream(ms) + tail) == ServiceOf(answers, turn, Requests(ms))
    decreases |ms|
  {
    RequestsAreMessages(ms);
    if ms == [] {
      assert Stream(ms) + tail == tail;
    } else {
      var m, rest := ms[0], Stream(ms[1..]) + tail;
      assert Stream(ms) + tail == MessageBytes(m) + rest;
      if m.status == RPC_PENDING {
        ServeRequest(answers, turn, m, rest);
        assert Requests(ms)[0] == m && Requests(ms)[1..] == Requests(ms[1..]);
        ServesExactlyTheRequests(answers, turn + 1, ms[1..], tail);
      } else {
        ServeSkipsReply(answers, turn, m, rest);
        assert Requests(ms) == Requests(ms[1..]);
        ServesExactlyTheRequests(answers, turn, ms[1..], tail);
      }
    }
  }

  ghost predicate Answered(answers: Answers, turn: nat, requests: seq<Message>, n: nat) {
    n <= |requests| && forall i :: 0 <= i < n ==> answers(turn + i, requests[i]).Answer?
  }

  /** The replies to the first n requests. */
  ghost function Replies(answers: Answers, turn: nat, requests: seq<Message>, n: nat): seq<Message>
    requires Answered(answers, turn, requests, n)
  {
    seq(n, i requires 0 <= i < n => ReplyTo(requests[i], answers(turn + i, requests[i])))
  }

  ghost predicate GoodReplies(ms: seq<Message>) {
    forall m :: m in ms ==> Sendable(m) && (m.status != 0 ==> m.body == [])
  }

  /** The first n requests, and the one that crashes if there is one. */
  function FirstHandled(requests: seq<Message>, n: nat): seq<Message>
    requires n <= |requests|
  {
    requests[..if n < |requests| then n + 1 else n]
  }

  /** The service consists of the first n replies, and of a crash at the next request if n does
      not exhaust the requests. */
  ghost predicate Explains(answers: Answers, turn: nat, requests: seq<Message>, n: nat, service: Service) {
    && Answered(answers, turn, requests, n)
    && GoodReplies(Replies(answers, turn, requests, n))
    && service.written == Stream(Replies(answers, turn, requests, n))
    && service.crashed == (n < |requests|)
    && service.handled == FirstHandled(requests, n)
    && (n < |requests| ==> answers(turn + n, requests[n]).Escapes?)
  }

  lemma {:induction false} HandledOneMore(requests: seq<Message>, k: nat)
    requires k < |requests|
    ensures [requests[0]] + FirstHandled(requests[1..], k) == FirstHandled(requests, k + 1)
  {
  }

  lemma {:induction false} ExplainsOneMore(answers: Answers, turn: nat, requests: seq<Message>, k: nat, later: Service)
    requires requests != [] && Sendable(requests[0]) && answers(turn, requests[0]).Answer?
    requires Explains(answers, turn + 1, requests[1..], k, later)
    ensures var reply := MessageBytes(ReplyTo(requests[0], answers(turn, requests[0])));
            Explains(answers, turn, requests, k + 1, Service([requests[0]] + later.handled, reply + later.written, later.crashed))
  {
    ShiftReplies(answers, turn, requests, k);
    StreamCons(ReplyTo(requests[0], answers(turn, requests[0])), Replies(answers, turn + 1, requests[1..], k));
    HandledOneMore(requests, k);
  }

  /** One reply goes out for each request, with its sequence and command and, on an error, an
      empty body; only an exception that is not an RPC error cuts this short. */
  lemma {:induction false} OneReplyEach(answers: Answers, turn: nat, requests: seq<Message>) returns (n: nat)
    requires forall m :: m in requests ==> Sendable(m)
    ensures Explains(answers, turn, requests, n, ServiceOf(answers, turn, requests))
    decreases |requests|
  {
    n := 0;
    if requests != [] {
      assert requests[0] in requests;
      if answers(turn, requests[0]).Answer? {
        var k := OneReplyEach(answers, turn + 1, requests[1..]);
        ExplainsOneMore(answers, turn, requests, k, ServiceOf(answers, turn + 1, requests[1..]));
        n := k + 1;
      }
    }
  }

  lemma {:induction false} StreamCons(m: Message, ms: seq<Message>)
    requires Sendable(m) && forall x :: x in ms ==> Sendable(x)
    ensures (forall x :: x in [m] + ms ==> Sendable(x)) && Stream([m] + ms) == MessageBytes(m) + Stream(ms)
  {
    assert ([m] + ms)[1..] == ms;
  }

  lemma {:induction false} ShiftReplies(answers: Answers, turn: nat, requests: seq<Message>, k: nat)
    requires k < |requests| && answers(turn, requests[0]).Answer?
    requires Answered(answers, turn + 1, requests[1..], k)
    ensures Answered(answers, turn, requests, k + 1)
    ensures Replies(answers, turn, requests, k + 1)
            == [ReplyTo(requests[0], answers(turn, requests[0]))] + Replies(answers, turn + 1, requests[1..], k)
  {
    forall i | 0 <= i < k + 1 ensures answers(turn + i, requests[i]).Answer? {
      if i > 0 {
        assert answers(turn + 1 + (i - 1), requests[1..][i - 1]).Answer?;
      }
    }
  }

  /** The whole conversation: any messages, an unfinished one at the end, any handlers. */
  lemma {:induction false} ConversationServed(answers: Answers, ms: seq<Message>, tail: Bytes) returns (n: nat)
    requires forall m :: m in ms ==> Sendable(m)
    requires Receive(tail) == None
    ensures Explains(answers, 0, Requests(ms), n, Serve(answers, 0, Stream(ms) + tail))
  {
    ServesExactlyTheRequests(answers, 0, ms, tail);
    n := OneReplyEach(answers, 0, Requests(ms));
  }

  // ---------------------------------------------------------------- the blast channel

  const GET_OBJECT := 2

  /** A single-use handler: it answers get_object once, with its object. */
  class BlastChannelSender {
    const obj: Value
    var sent: bool

    constructor (obj: Value)
      ensures this.obj == obj && !sent
    {
      this.obj, sent := obj, false;
    }

    /** send(): refuse other requests until get_object comes, answer it, and stop there. */
    method Send(conn: RpcConnection) returns (ok: bool, ghost refused: seq<Message>, ghost get: Message)
      requires !sent
      modifies this, conn.sock
      ensures ok <==> sent && Encode(XDR_OBJECT, obj).Some? && |Encode(XDR_OBJECT, obj).value| < TWO_32
      ensures forall m :: m in refused ==> Addressable(m) && m.cmd != GET_OBJECT
      ensures ok ==>
        && Addressable(get) && get.cmd == GET_OBJECT
        && conn.sock.outgoing == old(conn.sock.outgoing) + Stream(Refusals(refused))
             + MessageBytes(ReplyTo(get, Answer(0, Encode(XDR_OBJECT, obj).value)))
    {
      var reply := obj;
      var handlers: Handlers := map[GET_OBJECT := Handler(None, Some(XDR_OBJECT), (turn, arg) => Returns(reply))];
      refused, get := [], Message(0, RPC_PENDING, 0, []);
      ok := true;
      while !sent
        invariant ok
        invariant forall m :: m in refused ==> Addressable(m) && m.cmd != GET_OBJECT
        invariant !sent ==> conn.sock.outgoing == old(conn.sock.outgoing) + Stream(Refusals(refused))
        invariant sent ==>
          && Encode(XDR_OBJECT, obj).Some? && |Encode(XDR_OBJECT, obj).value| < TWO_32
          && Addressable(get) && get.cmd == GET_OBJECT
          && conn.sock.outgoing == old(conn.sock.outgoing) + Stream(Refusals(refused))
               + MessageBytes(ReplyTo(get, Answer(0, Encode(XDR_OBJECT, obj).value)))
        decreases !sent, |conn.sock.incoming|
      {
        ghost var t := TurnOf(AnswersOf(handlers), 0, conn.sock.incoming);
        if Receive(conn.sock.incoming).Some? {
          ReceivedIsAddressable(conn.sock.incoming);
        }
        var served := conn.Dispatch(handlers, 0);
        match served {
          case ConnectionFailure =>
            return false, refused, get;
          case HandlerCrash =>
            sent := true;
            return false, refused, get;
          case Handled(request) =>
            if request.cmd == GET_OBJECT {
              sent := true;
              get := request;
            } else {
              RefusalsSnoc(refused, request);
              WrittenSoFar(old(conn.sock.outgoing), Stream(Refusals(refused)), t.reply);
              refused := refused + [request];
            }
        }
      }
    }
  }

  function Refusals(requests: seq<Message>): (ms: seq<Message>)
    requires forall m :: m in requests ==> Addressable(m)
    ensures forall m :: m in ms ==> Sendable(m)
  {
    assert forall i :: 0 <= i < |requests| ==> Addressable(requests[i]);
    var ms := seq(|requests|, i requires 0 <= i < |requests| => ReplyTo(requests[i], Answer(PROCEDURE_UNAVAILABLE, [])));
    assert forall i :: 0 <= i < |ms| ==> Sendable(ms[i]);
    ms
  }

  lemma {:induction false} StreamSnoc(ms: seq<Message>, m: Message)
    requires Sendable(m) && forall x :: x in ms ==> Sendable(x)
    ensures (forall x :: x in ms + [m] ==> Sendable(x)) && Stream(ms + [m]) == Stream(ms) + MessageBytes(m)
    decreases |ms|
  {
    if ms == [] {
      assert [] + [m] == [m] && [m][1..] == [] && MessageBytes(m) + [] == MessageBytes(m);
    } else {
      StreamSnoc(ms[1..], m);
      assert (ms + [m])[1..] == ms[1..] + [m];
      WrittenSoFar(MessageBytes(ms[0]), Stream(ms[1..]), MessageBytes(m));
    }
  }

  lemma {:induction false} RefusalsSnoc(requests: seq<Message>, request: Message)
    requires Addressable(request) && forall m :: m in requests ==> Addressable(m)
    ensures forall m :: m in requests + [request] ==> Addressable(m)
    ensures Stream(Refusals(requests + [request]))
            == Stream(Refusals(requests)) + MessageBytes(ReplyTo(request, Answer(PROCEDURE_UNAVAILABLE, [])))
  {
    var refusal := ReplyTo(request, Answer(PROCEDURE_UNAVAILABLE, []));
    assert Refusals(requests + [request]) == Refusals(requests) + [refusal];
    StreamSnoc(Refusals(requests), refusal);
  }
}
