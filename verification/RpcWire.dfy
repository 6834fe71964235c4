/** The bytes of messages and replies, and what becomes of unfinished ones. */
module RpcWire {
  import opened Wrappers
  import opened RpcCodes
  import opened Xdr
  import opened XdrWire
  import opened Protocol
  import opened Rpc

  /** Four big-endian words, the signed ones in two's complement, and the body. */
  predicate IsMessage(b: Bytes, sequence: int, status: int, cmd: int, body: Bytes) {
    && |b| >= 16 && b[16..] == body
    && BigEndian(b[..4]) == sequence && BigEndian(b[4..8]) == status % 0x1_0000_0000
    && BigEndian(b[8..12]) == cmd % 0x1_0000_0000 && BigEndian(b[12..16]) == |body|
  }

  /** A message is its header and its body. */
  lemma {:induction false} MessageOnWire(m: Message)
    requires Sendable(m)
    ensures IsMessage(MessageBytes(m), m.sequence, m.status, m.cmd, m.body)
  {
    var b, h := MessageBytes(m), HeaderBytes(m);
    assert b[..4] == h[..4] == Be32(m.sequence) && b[4..8] == h[4..8] == Be32(Unsigned(m.status));
    assert b[8..12] == h[8..12] == Be32(Unsigned(m.cmd)) && b[12..16] == h[12..16] == Be32(|m.body|);
    assert b[16..] == m.body;
    HeaderWords(m);
  }

  lemma {:induction false} HeaderWords(m: Message)
    requires Sendable(m)
    ensures BigEndian(Be32(m.sequence)) == m.sequence && BigEndian(Be32(|m.body|)) == |m.body|
    ensures BigEndian(Be32(Unsigned(m.status))) == m.status % TWO_32
    ensures BigEndian(Be32(Unsigned(m.cmd))) == m.cmd % TWO_32
  {
    WordExactly(m.sequence, Be32(m.sequence));
    WordExactly(Unsigned(m.status), Be32(Unsigned(m.status)));
    WordExactly(Unsigned(m.cmd), Be32(Unsigned(m.cmd)));
    WordExactly(|m.body|, Be32(|m.body|));
    UnsignedIsModulo(m.status);
    UnsignedIsModulo(m.cmd);
  }

  /** Request number 1 for command 5 with three bytes of data. */
  lemma {:induction false} HeaderVector(body: Bytes)
    requires |body| == 3
    ensures HeaderBytes(Message(1, RPC_PENDING, 5, body)) == [0, 0, 0, 1, 255, 255, 255, 255, 0, 0, 0, 5, 0, 0, 0, 3]
  {
    Words();
    assert Unsigned(RPC_PENDING) == TWO_32 - 1 && Be32(5) == [0, 0, 0, 5];
  }

  // ---------------------------------------------------------------- unfinished messages

  /** A message that is cut short is not handed on, whatever it is and wherever it is cut. */
  lemma {:induction false} UnfinishedIsNothing(m: Message, k: nat)
    requires Sendable(m) && k < |MessageBytes(m)|
    ensures Receive(MessageBytes(m)[..k]) == None
  {
    var stream := MessageBytes(m)[..k];
    if k >= ENCODED_LENGTH {
      HeaderInverse(m);
      assert stream[..ENCODED_LENGTH] == HeaderBytes(m);
    }
  }

  /** So every conversation that breaks off inside a message is served up to that message. */
  lemma {:induction false} BrokenOffConversation(answers: Answers, ms: seq<Message>, m: Message, k: nat) returns (n: nat)
    requires Sendable(m) && k < |MessageBytes(m)| && forall x :: x in ms ==> Sendable(x)
    ensures Explains(answers, 0, Requests(ms), n, Serve(answers, 0, Stream(ms) + MessageBytes(m)[..k]))
  {
    UnfinishedIsNothing(m, k);
    n := ConversationServed(answers, ms, MessageBytes(m)[..k]);
  }

  // ---------------------------------------------------------------- what a request is answered with

  /** The turn writes one reply, to this request, with this status and body. */
  predicate AnswersWith(t: Turn, request: Message, status: int, body: Bytes) {
    t.Replied? && IsMessage(t.reply, request.sequence, status, request.cmd, body)
  }

  /** The argument that the handler gets, if the request can be decoded. */
  function Argument(handler: Handler, request: Message): Result<Value, DecodeError> {
    match handler.request
    case None => Ok(Nothing)
    case Some(schema) => DecodeAll(schema, request.body)
  }

  /** What the turn must be for this reaction of this handler. */
  ghost predicate Meets(t: Turn, request: Message, handler: Handler, reaction: Reaction) {
    match reaction
    case RaisesOther => t.Crashed?
    case RaisesRpc(code) => if -0x8000_0000 <= code < 0x8000_0000 then AnswersWith(t, request, code, []) else t.Crashed?
    case ReturnsNone => if handler.reply.None? then AnswersWith(t, request, 0, []) else t.Crashed?
    case Returns(value) =>
      if exists b :: handler.reply.Some? && Wire(handler.reply.value, value, b) && |b| < 0x1_0000_0000
      then forall b :: Wire(handler.reply.value, value, b) ==> AnswersWith(t, request, 0, b)
      else t.Crashed?
  }

  lemma {:induction false} AnswerOnWire(answers: Answers, turn: nat, request: Message, rest: Bytes)
    requires Sendable(request) && request.status == RPC_PENDING && answers(turn, request).Answer?
    ensures var a := answers(turn, request);
            AnswersWith(TurnOf(answers, turn, MessageBytes(request) + rest), request, a.status, a.body)
  {
    ServeRequest(answers, turn, request, rest);
    MessageOnWire(ReplyTo(request, answers(turn, request)));
  }

  lemma {:induction false} EncodedOnWire(s: Schema, v: Value)
    ensures Encode(s, v).Some? ==> forall b :: Wire(s, v, b) <==> b == Encode(s, v).value
    ensures Encode(s, v).None? ==> forall b :: !Wire(s, v, b)
  {
    forall b ensures Encode(s, v) == Some(b) <==> Wire(s, v, b) {
      EncodeExactly(s, v, b);
    }
  }

  /** Each way of handling a request has its own status on the wire: -3 without a handler, -2 for a
      request that cannot be decoded, the code of an RPC error, 0 with the encoded result; only an
      exception that is no RPC error, or a result that does not fit, goes unanswered. */
  lemma {:induction false} StatusOfReply(handlers: Handlers, turn: nat, request: Message, rest: Bytes)
    requires Sendable(request) && request.status == RPC_PENDING
    ensures var t := TurnOf(AnswersOf(handlers), turn, MessageBytes(request) + rest);
            && !t.Closed? && t.request == request && t.rest == rest
            && if request.cmd !in handlers then AnswersWith(t, request, -3, [])
               else
                 var handler := handlers[request.cmd];
                 if Argument(handler, request).Err? then AnswersWith(t, request, -2, [])
                 else Meets(t, request, handler, handler.react(turn, Argument(handler, request).value))
  {
    var answers := AnswersOf(handlers);
    ServeRequest(answers, turn, request, rest);
    if answers(turn, request).Answer? {
      AnswerOnWire(answers, turn, request, rest);
    }
    if request.cmd in handlers && Argument(handlers[request.cmd], request).Ok? {
      var handler := handlers[request.cmd];
      var reaction := handler.react(turn, Argument(handler, request).value);
      if reaction.Returns? && handler.reply.Some? {
        EncodedOnWire(handler.reply.value, reaction.value);
      }
    }
  }
}
