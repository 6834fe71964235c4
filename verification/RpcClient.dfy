/** The client end of an RPC connection: outstanding calls matched to replies by sequence number. */
module RpcClient {
  import opened Wrappers
  import opened RpcCodes

  type Body = string

  datatype Header = Header(sequence: nat, status: int, cmd: int)

  /** What a call is resumed with: a reply message, or (None, '') when the connection is lost. */
  datatype Outcome = Reply(header: Header, data: Body) | Lost

  /** The suspended _call() that registered under this sequence number. */
  datatype Callback = Callback(sequence: nat)

  /** `resumed` lists the callbacks run so far, `sent` the headers written. */
  datatype State = State(
    next: nat, pending: map<nat, Callback>, reading: bool,
    resumed: seq<(Callback, Outcome)>, sent: seq<Header>)

  const INITIAL := State(0, map[], true, [], [])

  function Call(s: State, cmd: int): State {
    s.(next := s.next + 1, pending := s.pending[s.next := Callback(s.next)],
       sent := s.sent + [Header(s.next, RPC_PENDING, cmd)])
  }

  /** Calls made one after the other, as a callback may do. */
  function Calls(s: State, cmds: seq<int>): State {
    if cmds == [] then s else Call(Calls(s, cmds[..|cmds| - 1]), cmds[|cmds| - 1])
  }

  /** A message has been read in full; `during` are the calls made by the callback it resumes. */
  function Message(s: State, h: Header, data: Body, during: seq<int>): State {
    if h.status == RPC_PENDING then s.(sent := s.sent + [Header(h.sequence, ENCODING_ERROR, h.cmd)])
    else if h.sequence !in s.pending then s
    else Calls(s.(pending := s.pending - {h.sequence},
                  resumed := s.resumed + [(s.pending[h.sequence], Reply(h, data))]), during)
  }

  function Losses(pending: map<nat, Callback>, order: seq<nat>): seq<(Callback, Outcome)>
    requires forall q :: q in order ==> q in pending
  {
    if order == [] then []
    else Losses(pending, order[..|order| - 1]) + [(pending[order[|order| - 1]], Lost)]
  }

  /** The connection is lost: the calls then pending are failed, in the order given. */
  function FailAll(s: State, order: seq<nat>, during: seq<int>): State
    requires forall q :: q in order ==> q in s.pending
  {
    Calls(s.(reading := false, pending := map[],
             resumed := s.resumed + Losses(s.pending, order)), during)
  }

  // ---------------------------------------------------------------- the class

  class RpcClientConnection {
    var next: nat
    var pending: map<nat, Callback>
    var reading: bool
    var resumed: seq<(Callback, Outcome)>
    var sent: seq<Header>

    function Now(): State
      reads this
    {
      State(next, pending, reading, resumed, sent)
    }

    constructor ()
      ensures Now() == INITIAL
    {
      next, pending, reading, resumed, sent := 0, map[], true, [], [];
    }

    /** _call(), up to the point where it waits for the reply. */
    method CallNow(cmd: int)
      modifies this
      ensures Now() == Call(old(Now()), cmd)
    {
      var seqno := next;
      next := next + 1;
      pending := pending[seqno := Callback(seqno)];
      sent := sent + [Header(seqno, RPC_PENDING, cmd)];
    }

    method CallsNow(cmds: seq<int>)
      modifies this
      ensures Now() == Calls(old(Now()), cmds)
    {
      for n := 0 to |cmds|
        invariant Now() == Calls(old(Now()), cmds[..n])
      {
        assert cmds[..n + 1][..n] == cmds[..n];
        CallNow(cmds[n]);
      }
      assert cmds[..|cmds|] == cmds;
    }

    /** One turn of _reply_handler(). */
    method MessageArrives(h: Header, data: Body, during: seq<int>)
      modifies this
      ensures Now() == Message(old(Now()), h, data, during)
    {
      if h.status == RPC_PENDING {
        sent := sent + [Header(h.sequence, ENCODING_ERROR, h.cmd)];
        return;
      }
      if h.sequence !in pending {
        return;  // dropped on the floor
      }
      var callback := pending[h.sequence];
      pending := pending - {h.sequence};
      resumed := resumed + [(callback, Reply(h, data))];
      CallsNow(during);
    }

    /** _reply_handler() on a ConnectionFailure: error out the pending callbacks and stop. */
    method ConnectionLost(during: seq<int>) returns (ghost order: seq<nat>)
      modifies this
      ensures forall q :: q in old(pending) <==> q in order
      ensures forall i, j :: 0 <= i < j < |order| ==> order[i] != order[j]
      ensures Now() == FailAll(old(Now()), order, during)
    {
      var callbacks := pending;
      pending := map[];
      reading := false;
      order := [];
      var todo := callbacks.Keys;
      while todo != {}
        invariant todo <= callbacks.Keys
        invariant forall q :: q in order <==> q in callbacks.Keys - todo
        invariant forall i, j :: 0 <= i < j < |order| ==> order[i] != order[j]
        invariant forall i :: 0 <= i < |order| ==> order[i] !in todo
        invariant Now() == old(Now()).(reading := false, pending := map[], resumed := resumed)
        invariant resumed == old(resumed) + Losses(callbacks, order)
        decreases todo
      {
        var q :| q in todo;
        resumed := resumed + [(callbacks[q], Lost)];
        assert (order + [q])[..|order|] == order;
        order := order + [q];
        todo := todo - {q};
      }
      CallsNow(during);
    }
  }

  // ---------------------------------------------------------------- whole runs

  datatype Event =
    | CallEvent(cmd: int)
    | MessageEvent(header: Header, data: Body, during: seq<int>)
    | LossEvent(order: seq<nat>, during: seq<int>)

  /** An order in which the values of the pending map can be listed. */
  ghost predicate Lists(pending: map<nat, Callback>, order: seq<nat>) {
    && (forall q :: q in order <==> q in pending)
    && (forall i, j :: 0 <= i < j < |order| ==> order[i] != order[j])
  }

  ghost function Step(s: State, e: Event): State {
    match e
    case CallEvent(cmd) => Call(s, cmd)
    case MessageEvent(h, data, during) => if s.reading then Message(s, h, data, during) else s
    case LossEvent(order, during) => if s.reading && Lists(s.pending, order) then FailAll(s, order, during) else s
  }

  ghost function Run(es: seq<Event>): State
    decreases |es|
  {
    if es == [] then INITIAL else Step(Run(es[..|es| - 1]), es[|es| - 1])
  }

  ghost predicate WasResumed(resumed: seq<(Callback, Outcome)>, q: nat) {
    exists i :: 0 <= i < |resumed| && resumed[i].0 == Callback(q)
  }

  /** A sequence number that has been used is pending or has been resumed, never both; no
      call is resumed twice, and a reply resumes the call whose sequence number it bears. */
  ghost predicate Inv(s: State) {
    && (forall q :: q in s.pending ==> q < s.next && s.pending[q] == Callback(q))
    && (forall i :: 0 <= i < |s.resumed| ==> s.resumed[i].0.sequence < s.next && s.resumed[i].0.sequence !in s.pending)
    && (forall i, j :: 0 <= i < j < |s.resumed| ==> s.resumed[i].0 != s.resumed[j].0)
    && (forall i :: 0 <= i < |s.resumed| && s.resumed[i].1.Reply? ==>
          s.resumed[i].1.header.sequence == s.resumed[i].0.sequence && s.resumed[i].1.header.status != RPC_PENDING)
    && (forall q: nat :: q < s.next ==> q in s.pending || WasResumed(s.resumed, q))
  }

  lemma {:induction false} CallKeepsInv(s: State, cmd: int)
    requires Inv(s)
    ensures Inv(Call(s, cmd))
  {
  }

  lemma {:induction false} CallsKeepInv(s: State, cmds: seq<int>)
    requires Inv(s)
    ensures Inv(Calls(s, cmds)) && Calls(s, cmds).resumed == s.resumed && Calls(s, cmds).reading == s.reading
    ensures forall q :: q in Calls(s, cmds).pending && q !in s.pending ==> q >= s.next
    ensures Calls(s, cmds).next >= s.next
  {
    if cmds != [] {
      CallsKeepInv(s, cmds[..|cmds| - 1]);
      CallKeepsInv(Calls(s, cmds[..|cmds| - 1]), cmds[|cmds| - 1]);
    }
  }

  lemma {:induction false} LossesAt(pending: map<nat, Callback>, order: seq<nat>)
    requires forall q :: q in order ==> q in pending
    ensures |Losses(pending, order)| == |order|
    ensures forall i :: 0 <= i < |order| ==> Losses(pending, order)[i] == (pending[order[i]], Lost)
  {
    if order != [] {
      LossesAt(pending, order[..|order| - 1]);
    }
  }

  lemma {:induction false} ReplyKeepsInv(s: State, h: Header, data: Body)
    requires Inv(s) && h.status != RPC_PENDING && h.sequence in s.pending
    ensures Inv(s.(pending := s.pending - {h.sequence}, resumed := s.resumed + [(s.pending[h.sequence], Reply(h, data))]))
  {
    var resumed := s.resumed + [(s.pending[h.sequence], Reply(h, data))];
    forall q: nat | q < s.next && q !in s.pending - {h.sequence}
      ensures WasResumed(resumed, q)
    {
      if q == h.sequence {
        assert resumed[|s.resumed|].0 == Callback(q);
      } else {
        var i :| 0 <= i < |s.resumed| && s.resumed[i].0 == Callback(q);
        assert resumed[i] == s.resumed[i];
      }
    }
  }

  lemma {:induction false} LossKeepsInv(s: State, order: seq<nat>)
    requires Inv(s) && Lists(s.pending, order)
    ensures Inv(s.(reading := false, pending := map[], resumed := s.resumed + Losses(s.pending, order)))
  {
    LossesAt(s.pending, order);
    var resumed := s.resumed + Losses(s.pending, order);
    assert forall i :: 0 <= i < |order| ==> order[i] in order;
    forall q: nat | q < s.next ensures WasResumed(resumed, q) {
      if q in s.pending {
        var i :| 0 <= i < |order| && order[i] == q;
        assert resumed[|s.resumed| + i] == (s.pending[q], Lost);
      } else {
        var i :| 0 <= i < |s.resumed| && s.resumed[i].0 == Callback(q);
        assert resumed[i] == s.resumed[i];
      }
    }
  }

  lemma {:induction false} RunKeepsInv(es: seq<Event>)
    ensures Inv(Run(es))
    decreases |es|
  {
    if es != [] {
      var s, e := Run(es[..|es| - 1]), es[|es| - 1];
      RunKeepsInv(es[..|es| - 1]);
      match e
      case CallEvent(cmd) => CallKeepsInv(s, cmd);
      case MessageEvent(h, data, during) =>
        if s.reading && h.status != RPC_PENDING && h.sequence in s.pending {
          ReplyKeepsInv(s, h, data);
          CallsKeepInv(s.(pending := s.pending - {h.sequence}, resumed := s.resumed + [(s.pending[h.sequence], Reply(h, data))]), during);
        }
      case LossEvent(order, during) =>
        if s.reading && Lists(s.pending, order) {
          LossKeepsInv(s, order);
          CallsKeepInv(s.(reading := false, pending := map[], resumed := s.resumed + Losses(s.pending, order)), during);
        }
    }
  }

  /** Under any order of replies, unknown sequence numbers, stray requests and a loss: every
      call made is still pending or was resumed exactly once, and by a reply only if that reply
      bears the call's own sequence number. */
  lemma {:induction false} EachCallResumedOnce(es: seq<Event>, q: nat)
    requires q < Run(es).next
    ensures var s := Run(es);
            if q in s.pending
            then forall i :: 0 <= i < |s.resumed| ==> s.resumed[i].0 != Callback(q)
            else exists i :: 0 <= i < |s.resumed| && s.resumed[i].0 == Callback(q)
                   && (s.resumed[i].1.Reply? ==> s.resumed[i].1.header.sequence == q)
                   && forall j :: 0 <= j < |s.resumed| && j != i ==> s.resumed[j].0 != Callback(q)
  {
    RunKeepsInv(es);
  }

  /** A loss fails exactly the calls pending at that moment, each once; calls that the failing
      callbacks make are not among them. */
  lemma {:induction false} LossFailsPending(es: seq<Event>, order: seq<nat>, during: seq<int>, q: nat)
    requires Run(es).reading && Lists(Run(es).pending, order)
    ensures var s := Run(es);
            var s' := Step(s, LossEvent(order, during));
            && |s'.resumed| == |s.resumed| + |order| && s'.resumed[..|s.resumed|] == s.resumed
            && ((Callback(q), Lost) in s'.resumed[|s.resumed|..] <==> q in s.pending)
            && (forall p :: p in s'.pending ==> p >= s.next)
  {
    RunKeepsInv(es);
    var s := Run(es);
    LossKeepsInv(s, order);
    LossesAt(s.pending, order);
    var failed := s.(reading := false, pending := map[], resumed := s.resumed + Losses(s.pending, order));
    CallsKeepInv(failed, during);
    var s' := Step(s, LossEvent(order, during));
    assert s'.resumed[|s.resumed|..] == Losses(s.pending, order);
    if q in s.pending {
      var i :| 0 <= i < |order| && order[i] == q;
      assert Losses(s.pending, order)[i] == (Callback(q), Lost);
    }
    if (Callback(q), Lost) in Losses(s.pending, order) {
      var i :| 0 <= i < |order| && Losses(s.pending, order)[i] == (Callback(q), Lost);
      assert order[i] in s.pending;
    }
  }

  // ---------------------------------------------------------------- what goes out

  /** The calls that an event makes, by their commands: those of its callbacks included. */
  ghost function Made(s: State, e: Event): seq<int> {
    match e
    case CallEvent(cmd) => [cmd]
    case MessageEvent(h, _, during) => if s.reading && h.status != RPC_PENDING && h.sequence in s.pending then during else []
    case LossEvent(order, during) => if s.reading && Lists(s.pending, order) then during else []
  }

  ghost function MadeSoFar(es: seq<Event>): seq<int>
    decreases |es|
  {
    if es == [] then [] else MadeSoFar(es[..|es| - 1]) + Made(Run(es[..|es| - 1]), es[|es| - 1])
  }

  /** The requests that have come in by mistake. */
  ghost function StraysSoFar(es: seq<Event>): seq<Header>
    decreases |es|
  {
    if es == [] then []
    else
      var e := es[|es| - 1];
      StraysSoFar(es[..|es| - 1])
      + if e.MessageEvent? && e.header.status == RPC_PENDING && Run(es[..|es| - 1]).reading then [e.header] else []
  }

  /** The headers among hs that are requests, or those that are not. */
  function Sort(hs: seq<Header>, requests: bool): seq<Header> {
    if hs == [] then []
    else
      var n := |hs| - 1;
      Sort(hs[..n], requests) + if (hs[n].status == RPC_PENDING) == requests then [hs[n]] else []
  }

  /** Numbered from 0 on, with the commands of the calls. */
  predicate Numbered(requests: seq<Header>, cmds: seq<int>) {
    |requests| == |cmds| && forall q :: 0 <= q < |cmds| ==> requests[q] == Header(q, RPC_PENDING, cmds[q])
  }

  predicate Refused(replies: seq<Header>, strays: seq<Header>) {
    && |replies| == |strays|
    && forall i :: 0 <= i < |strays| ==> replies[i] == Header(strays[i].sequence, ENCODING_ERROR, strays[i].cmd)
  }

  lemma {:induction false} SortSnoc(hs: seq<Header>, h: Header, requests: bool)
    ensures Sort(hs + [h], requests) == Sort(hs, requests) + if (h.status == RPC_PENDING) == requests then [h] else []
  {
    assert (hs + [h])[..|hs|] == hs;
  }

  /** Numbers are given out in order, one for each call. */
  lemma {:induction false} CallsAreNumbered(s: State, cmds: seq<int>, before: seq<int>)
    requires Numbered(Sort(s.sent, true), before) && s.next == |before|
    ensures var s' := Calls(s, cmds);
            && Numbered(Sort(s'.sent, true), before + cmds) && s'.next == |before + cmds|
            && Sort(s'.sent, false) == Sort(s.sent, false)
  {
    if cmds == [] {
      assert before + cmds == before;
    } else {
      var n := |cmds| - 1;
      var mid := Calls(s, cmds[..n]);
      CallsAreNumbered(s, cmds[..n], before);
      CallIsNumbered(mid, cmds[n], before + cmds[..n]);
      assert before + cmds[..n] + [cmds[n]] == before + cmds;
    }
  }

  lemma {:induction false} CallIsNumbered(s: State, cmd: int, before: seq<int>)
    requires Numbered(Sort(s.sent, true), before) && s.next == |before|
    ensures var s' := Call(s, cmd);
            && Numbered(Sort(s'.sent, true), before + [cmd]) && s'.next == |before + [cmd]|
            && Sort(s'.sent, false) == Sort(s.sent, false)
  {
    var h := Header(s.next, RPC_PENDING, cmd);
    assert Call(s, cmd).sent == s.sent + [h];
    SortSnoc(s.sent, h, true);
    SortSnoc(s.sent, h, false);
  }

  lemma {:induction false} StraysAreRefused(s: State, h: Header, strays: seq<Header>)
    requires Refused(Sort(s.sent, false), strays) && h.status == RPC_PENDING
    ensures var s' := Message(s, h, "", []);
            && Refused(Sort(s'.sent, false), strays + [h]) && Sort(s'.sent, true) == Sort(s.sent, true) && s'.next == s.next
  {
    var reply := Header(h.sequence, ENCODING_ERROR, h.cmd);
    assert Message(s, h, "", []).sent == s.sent + [reply];
    SortSnoc(s.sent, reply, true);
    SortSnoc(s.sent, reply, false);
  }

  /** What one event adds to the requests and to the refusals. */
  lemma {:induction false} StepSends(s: State, e: Event, cmds: seq<int>, strays: seq<Header>)
    requires Numbered(Sort(s.sent, true), cmds) && s.next == |cmds| && Refused(Sort(s.sent, false), strays)
    ensures var s' := Step(s, e);
            var more := if e.MessageEvent? && e.header.status == RPC_PENDING && s.reading then [e.header] else [];
            && Numbered(Sort(s'.sent, true), cmds + Made(s, e)) && s'.next == |cmds + Made(s, e)|
            && Refused(Sort(s'.sent, false), strays + more)
  {
    assert cmds + [] == cmds && strays + [] == strays;
    match e
    case CallEvent(cmd) => CallIsNumbered(s, cmd, cmds);
    case MessageEvent(h, data, during) =>
      if s.reading && h.status == RPC_PENDING {
        StraysAreRefused(s, h, strays);
      } else if s.reading && h.sequence in s.pending {
        CallsAreNumbered(s.(pending := s.pending - {h.sequence},
                            resumed := s.resumed + [(s.pending[h.sequence], Reply(h, data))]), during, cmds);
      }
    case LossEvent(order, during) =>
      if s.reading && Lists(s.pending, order) {
        CallsAreNumbered(s.(reading := false, pending := map[], resumed := s.resumed + Losses(s.pending, order)), during, cmds);
      }
  }

  /** In every run: the requests on the wire bear the numbers 0, 1, 2 and so on, each once and in
      order, with the commands of the calls as they were made; every other message refuses a stray
      request, under that request's number and command. */
  lemma {:induction false} SentInOrder(es: seq<Event>)
    ensures var s := Run(es);
            && Numbered(Sort(s.sent, true), MadeSoFar(es)) && s.next == |MadeSoFar(es)|
            && Refused(Sort(s.sent, false), StraysSoFar(es))
    decreases |es|
  {
    if es != [] {
      var n := |es| - 1;
      SentInOrder(es[..n]);
      StepSends(Run(es[..n]), es[n], MadeSoFar(es[..n]), StraysSoFar(es[..n]));
    }
  }

  // ---------------------------------------------------------------- what comes back

  ghost predicate Arrived(es: seq<Event>, h: Header, data: Body) {
    exists m, during :: 0 <= m < |es| && es[m] == MessageEvent(h, data, during)
  }

  /** A call is handed the header and the data of a message that has arrived. */
  lemma {:induction false} RepliesArrived(es: seq<Event>, i: nat)
    requires i < |Run(es).resumed| && Run(es).resumed[i].1.Reply?
    ensures var reply := Run(es).resumed[i].1; Arrived(es, reply.header, reply.data)
    decreases |es|
  {
    var n := |es| - 1;
    var s, e := Run(es[..n]), es[n];
    ResumedByStep(s, e, es[..n]);
    if i < |s.resumed| {
      RepliesArrived(es[..n], i);
      var reply := s.resumed[i].1;
      var m, during :| 0 <= m < n && es[..n][m] == MessageEvent(reply.header, reply.data, during);
      assert es[m] == MessageEvent(reply.header, reply.data, during);
    } else {
      assert e == es[n] && e == MessageEvent(e.header, e.data, e.during);
    }
  }

  /** A step resumes nobody, the caller of the reply that has arrived, or all that are pending. */
  lemma {:induction false} ResumedByStep(s: State, e: Event, es: seq<Event>)
    requires s == Run(es)
    ensures var s' := Step(s, e);
            && s.resumed <= s'.resumed
            && (e.MessageEvent? && s.reading && e.header.status != RPC_PENDING && e.header.sequence in s.pending ==>
                  s'.resumed == s.resumed + [(Callback(e.header.sequence), Reply(e.header, e.data))])
            && forall i :: |s.resumed| <= i < |s'.resumed| && s'.resumed[i].1.Reply? ==>
                 e.MessageEvent? && s'.resumed[i].1 == Reply(e.header, e.data)
  {
    RunKeepsInv(es);
    match e
    case CallEvent(cmd) => assert Step(s, e).resumed == s.resumed;
    case MessageEvent(h, data, during) =>
      if s.reading && h.status != RPC_PENDING && h.sequence in s.pending {
        var mid := s.(pending := s.pending - {h.sequence}, resumed := s.resumed + [(s.pending[h.sequence], Reply(h, data))]);
        ReplyKeepsInv(s, h, data);
        CallsKeepInv(mid, during);
        assert Step(s, e).resumed == mid.resumed;
      } else {
        assert Step(s, e).resumed == s.resumed;
      }
    case LossEvent(order, during) =>
      if s.reading && Lists(s.pending, order) {
        var mid := s.(reading := false, pending := map[], resumed := s.resumed + Losses(s.pending, order));
        LossKeepsInv(s, order);
        CallsKeepInv(mid, during);
        LossesAt(s.pending, order);
        assert Step(s, e).resumed == mid.resumed;
      } else {
        assert Step(s, e).resumed == s.resumed;
      }
  }

  /** After a loss nothing is read any more, and no call is resumed. */
  lemma {:induction false} LossIsLast(es: seq<Event>, order: seq<nat>, during: seq<int>, e: Event)
    requires Run(es).reading && Lists(Run(es).pending, order)
    ensures var lost := Step(Run(es), LossEvent(order, during));
            !lost.reading && Step(lost, e).resumed == lost.resumed && !Step(lost, e).reading
  {
    RunKeepsInv(es);
    var s := Run(es);
    LossKeepsInv(s, order);
    CallsKeepInv(s.(reading := false, pending := map[], resumed := s.resumed + Losses(s.pending, order)), during);
  }
}
