/** The client's blast set: one coroutine per connection, pausing and resuming. */
module BlastSet {
  import opened Sequences

  type Conn = nat
  type Obj = string

  datatype Control = PauseCall | ResumeCall

  /** `requests` counts the get_object calls outstanding on each connection; `failed`,
      `delivered` and `finishedCalls` are what the outside has seen so far. */
  datatype State = State(
    connections: set<Conn>, blocking: set<Conn>, started: bool, paused: bool,
    requests: map<Conn, nat>, failed: set<Conn>, delivered: seq<(Conn, Obj)>, finishedCalls: nat)

  function Requests(s: State, c: Conn): nat {
    if c in s.requests then s.requests[c] else 0
  }

  function Initial(conns: set<Conn>): State {
    State(conns, conns, false, false, map[], {}, [], 0)
  }

  function Request(s: State, c: Conn): State {
    s.(requests := s.requests[c := Requests(s, c) + 1])
  }

  /** _try_start(): every blocking coroutine runs up to its next request. */
  function TryStart(s: State): State {
    if s.started && !s.paused
    then s.(blocking := {},
            requests := map c | c in s.requests.Keys + s.blocking :: Requests(s, c) + if c in s.blocking then 1 else 0)
    else s
  }

  function Controlled(s: State, control: Control): State {
    match control
    case PauseCall => s.(paused := true)
    case ResumeCall => TryStart(s.(paused := false))
  }

  function AllControlled(s: State, controls: seq<Control>): State {
    if controls == [] then s
    else Controlled(AllControlled(s, controls[..|controls| - 1]), controls[|controls| - 1])
  }

  /** The body of the coroutine after an object has arrived: deliver it, letting the callback
      pause and resume the set, then go on or block. */
  function Arrived(s: State, c: Conn, obj: Obj, during: seq<Control>): State
    requires Requests(s, c) > 0
  {
    var taken := s.(requests := s.requests[c := Requests(s, c) - 1], delivered := s.delivered + [(c, obj)]);
    var after := AllControlled(taken, during);
    if after.paused then after.(blocking := after.blocking + {c}) else Request(after, c)
  }

  function Ended(s: State, c: Conn): State
    requires Requests(s, c) > 0
  {
    s.(requests := s.requests[c := Requests(s, c) - 1],
       connections := s.connections - {c}, blocking := s.blocking - {c},
       finishedCalls := s.finishedCalls + if s.connections - {c} == {} then 1 else 0)
  }

  function Failed(s: State, c: Conn): State
    requires Requests(s, c) > 0
  {
    s.(requests := s.requests[c := Requests(s, c) - 1], failed := s.failed + {c})
  }

  // ---------------------------------------------------------------- the class

  class DiamondBlastSet {
    var connections: set<Conn>
    var blocking: set<Conn>
    var started: bool
    var paused: bool
    var requests: map<Conn, nat>
    var failed: set<Conn>
    var delivered: seq<(Conn, Obj)>
    var finishedCalls: nat

    function Now(): State
      reads this
    {
      State(connections, blocking, started, paused, requests, failed, delivered, finishedCalls)
    }

    constructor (conns: set<Conn>)
      ensures Now() == Initial(conns)
    {
      connections, blocking, started, paused := conns, conns, false, false;
      requests, failed, delivered, finishedCalls := map[], {}, [], 0;
    }

    method Start()
      requires !started
      modifies this
      ensures Now() == TryStart(old(Now()).(started := true))
    {
      started := true;
      TryStartNow();
    }

    method Pause()
      modifies this
      ensures Now() == Controlled(old(Now()), PauseCall)
    {
      paused := true;
    }

    method Resume()
      modifies this
      ensures Now() == Controlled(old(Now()), ResumeCall)
    {
      paused := false;
      TryStartNow();
    }

    method SendRequest(c: Conn)
      modifies this`requests
      ensures Now() == Request(old(Now()), c)
    {
      requests := requests[c := (if c in requests then requests[c] else 0) + 1];
    }

    method TryStartNow()
      modifies this
      ensures Now() == TryStart(old(Now()))
    {
      if started && !paused {
        var restart := blocking;
        blocking := {};
        ghost var s := Now();
        var todo := restart;
        while todo != {}
          invariant todo <= restart
          invariant Now() == s.(requests := requests)
          invariant requests.Keys == s.requests.Keys + (restart - todo)
          invariant forall c :: c in requests ==>
            requests[c] == Requests(s, c) + (if c in restart && c !in todo then 1 else 0)
          decreases todo
        {
          var c :| c in todo;
          SendRequest(c);
          todo := todo - {c};
        }
      }
    }

    /** _handle_objects() resumed with an object; `during` is what the callback does. */
    method ObjectArrives(c: Conn, obj: Obj, during: seq<Control>)
      requires Requests(Now(), c) > 0
      modifies this
      ensures Now() == Arrived(old(Now()), c, obj, during)
    {
      requests := requests[c := requests[c] - 1];
      delivered := delivered + [(c, obj)];
      ghost var s := Now();
      for n := 0 to |during|
        invariant Now() == AllControlled(s, during[..n])
      {
        assert during[..n + 1][..n] == during[..n];
        match during[n] {
          case PauseCall => Pause();
          case ResumeCall => Resume();
        }
      }
      assert during[..|during|] == during;
      if paused {
        blocking := blocking + {c};
      } else {
        SendRequest(c);
      }
    }

    /** ... resumed with the end-of-search object. */
    method EndArrives(c: Conn)
      requires Requests(Now(), c) > 0
      modifies this
      ensures Now() == Ended(old(Now()), c)
    {
      requests := requests[c := requests[c] - 1];
      connections := connections - {c};
      blocking := blocking - {c};
      if connections == {} {
        finishedCalls := finishedCalls + 1;
      }
    }

    /** ... resumed with an exception. */
    method ConnectionFails(c: Conn)
      requires Requests(Now(), c) > 0
      modifies this
      ensures Now() == Failed(old(Now()), c)
    {
      requests := requests[c := requests[c] - 1];
      failed := failed + {c};
    }
  }

  // ---------------------------------------------------------------- whole runs

  datatype Event =
    | StartEvent
    | ControlEvent(control: Control)
    | ObjectEvent(c: Conn, obj: Obj, during: seq<Control>)
    | EndEvent(c: Conn)
    | FailEvent(c: Conn)

  /** Replies answer requests, and start() is called once. */
  predicate Enabled(s: State, e: Event) {
    match e
    case StartEvent => !s.started
    case ControlEvent(_) => true
    case _ => Requests(s, e.c) > 0
  }

  function Step(s: State, e: Event): State {
    if !Enabled(s, e) then s
    else match e
         case StartEvent => TryStart(s.(started := true))
         case ControlEvent(control) => Controlled(s, control)
         case ObjectEvent(c, obj, during) => Arrived(s, c, obj, during)
         case EndEvent(c) => Ended(s, c)
         case FailEvent(c) => Failed(s, c)
  }

  function Run(s: State, es: seq<Event>): State
    decreases |es|
  {
    if es == [] then s else Step(Run(s, es[..|es| - 1]), es[|es| - 1])
  }

  /** Every connection is in one of four conditions; `busy` is the one, if any, whose coroutine
      is running its callback and is in none of them. */
  ghost predicate InvBut(conns: set<Conn>, s: State, busy: set<Conn>) {
    && s.connections <= conns && s.blocking <= s.connections && s.failed <= s.connections
    && s.blocking !! s.failed && busy !! s.blocking && busy !! s.failed
    && (forall c :: Requests(s, c) <= 1)
    && (forall c :: Requests(s, c) == 1 <==> c in s.connections && c !in s.blocking && c !in s.failed && c !in busy)
    && (s.started && !s.paused ==> s.blocking == {})
    && (!s.started ==> s.blocking == conns)
    && s.finishedCalls == (if s.connections == {} && conns != {} then 1 else 0)
  }

  ghost predicate Inv(conns: set<Conn>, s: State) {
    InvBut(conns, s, {})
  }

  /** Resuming sends a request for every blocking connection of a search that has started. */
  lemma {:induction false} ResumingKeepsInv(conns: set<Conn>, s: State, busy: set<Conn>)
    requires InvBut(conns, s, busy)
    ensures InvBut(conns, TryStart(s.(paused := false)), busy)
  {
    forall c ensures Requests(TryStart(s.(paused := false)), c) ==
      Requests(s, c) + if s.started && c in s.blocking then 1 else 0
    {
    }
  }

  lemma {:induction false} ControlKeepsInv(conns: set<Conn>, s: State, control: Control, busy: set<Conn>)
    requires InvBut(conns, s, busy)
    ensures InvBut(conns, Controlled(s, control), busy)
    ensures Controlled(s, control).started == s.started && Controlled(s, control).connections == s.connections
    ensures Controlled(s, control).delivered == s.delivered && Controlled(s, control).failed == s.failed
  {
    match control {
      case PauseCall =>
        assert forall c :: Requests(s.(paused := true), c) == Requests(s, c);
      case ResumeCall =>
        ResumingKeepsInv(conns, s, busy);
    }
  }

  lemma {:induction false} ControlsKeepInv(conns: set<Conn>, s: State, controls: seq<Control>, busy: set<Conn>)
    requires InvBut(conns, s, busy)
    ensures var s' := AllControlled(s, controls);
            && InvBut(conns, s', busy) && s'.started == s.started && s'.connections == s.connections
            && s'.delivered == s.delivered && s'.failed == s.failed
  {
    if controls != [] {
      ControlsKeepInv(conns, s, controls[..|controls| - 1], busy);
      ControlKeepsInv(conns, AllControlled(s, controls[..|controls| - 1]), controls[|controls| - 1], busy);
    }
  }

  lemma {:induction false} ArrivalKeepsInv(conns: set<Conn>, s: State, c: Conn, obj: Obj, during: seq<Control>)
    requires Inv(conns, s) && Requests(s, c) > 0
    ensures Inv(conns, Arrived(s, c, obj, during))
    ensures Arrived(s, c, obj, during).delivered == s.delivered + [(c, obj)]
  {
    var taken := s.(requests := s.requests[c := Requests(s, c) - 1], delivered := s.delivered + [(c, obj)]);
    assert forall d :: Requests(taken, d) == if d == c then 0 else Requests(s, d);
    assert InvBut(conns, taken, {c});
    ControlsKeepInv(conns, taken, during, {c});
    var after := AllControlled(taken, during);
    assert forall d :: Requests(Request(after, c), d) == Requests(after, d) + if d == c then 1 else 0;
    var s' := Arrived(s, c, obj, during);
    assert after.paused ==> forall d :: Requests(s', d) == Requests(after, d);
  }

  lemma {:induction false} StepKeepsInv(conns: set<Conn>, s: State, e: Event)
    requires Inv(conns, s)
    ensures Inv(conns, Step(s, e))
    ensures Step(s, e).delivered == s.delivered + if e.ObjectEvent? && Enabled(s, e) then [(e.c, e.obj)] else []
    ensures Step(s, e).finishedCalls == s.finishedCalls + if e.EndEvent? && Enabled(s, e) && s.connections == {e.c} then 1 else 0
  {
    var s' := Step(s, e);
    if Enabled(s, e) {
      match e
      case StartEvent =>
        assert forall c :: Requests(s', c) == Requests(s, c) + if !s.paused && c in s.blocking then 1 else 0;
      case ControlEvent(control) => ControlKeepsInv(conns, s, control, {});
      case ObjectEvent(c, obj, during) =>
        ArrivalKeepsInv(conns, s, c, obj, during);
        assert Requests(s, c) == 1;
      case EndEvent(c) =>
        assert forall d :: Requests(s', d) == if d == c then 0 else Requests(s, d);
        assert Requests(s, c) == 1 && c in s.connections;
      case FailEvent(c) =>
        assert forall d :: Requests(s', d) == if d == c then 0 else Requests(s, d);
    }
  }

  /** The objects that arrive in answer to requests, in order. */
  function Arrivals(s: State, es: seq<Event>): seq<(Conn, Obj)>
    decreases |es|
  {
    if es == [] then []
    else
      var before, e := Run(s, es[..|es| - 1]), es[|es| - 1];
      Arrivals(s, es[..|es| - 1]) + if e.ObjectEvent? && Enabled(before, e) then [(e.c, e.obj)] else []
  }

  /** Whatever the order of starts, pauses, resumes and arrivals: a connection of a started set
      that has neither finished nor failed is blocking or has exactly one request outstanding;
      none is blocking while the set runs unpaused; and the finished callback has run once if all
      have finished, else never. */
  lemma {:induction false} BlastSetIsSound(conns: set<Conn>, es: seq<Event>)
    ensures var s := Run(Initial(conns), es);
            && Inv(conns, s)
            && (forall c :: c in s.connections - s.failed ==>
                  (c in s.blocking && Requests(s, c) == 0) || (c !in s.blocking && Requests(s, c) == 1))
            && (forall c :: c !in s.connections || c in s.failed ==> c !in s.blocking && Requests(s, c) == 0)
            && (s.started && !s.paused ==> s.blocking == {})
            && s.delivered == Arrivals(Initial(conns), es)
            && s.finishedCalls == (if s.connections == {} && conns != {} then 1 else 0)
    decreases |es|
  {
    if es != [] {
      BlastSetIsSound(conns, es[..|es| - 1]);
      StepKeepsInv(conns, Run(Initial(conns), es[..|es| - 1]), es[|es| - 1]);
    }
    var s := Run(Initial(conns), es);
    assert forall c :: Requests(s, c) <= 1;
  }

  /** The callback runs at the step in which the last connection finishes. */
  lemma {:induction false} FinishedAtLastEnd(conns: set<Conn>, es: seq<Event>, e: Event)
    ensures var s := Run(Initial(conns), es);
            Step(s, e).finishedCalls == s.finishedCalls +
              if e.EndEvent? && Enabled(s, e) && s.connections == {e.c} then 1 else 0
  {
    BlastSetIsSound(conns, es);
    StepKeepsInv(conns, Run(Initial(conns), es), e);
  }

  // ---------------------------------------------------------------- in the server's order

  /** What the server has for each connection: the objects, then the end of the search. */
  type Script = Conn -> seq<Obj>

  predicate Answers(s: State, e: Event, c: Conn) {
    (e.ObjectEvent? || e.EndEvent? || e.FailEvent?) && e.c == c && Enabled(s, e)
  }

  /** How many requests have been made on c. */
  function Asked(s: State, es: seq<Event>, c: Conn): int
    decreases |es|
  {
    if es == [] then Requests(s, c)
    else
      var before, e := Run(s, es[..|es| - 1]), es[|es| - 1];
      Asked(s, es[..|es| - 1], c) + Requests(Step(before, e), c) - Requests(before, c) + if Answers(before, e, c) then 1 else 0
  }

  /** The numbers of the requests on c that have been answered; event i answers number nums[i]. */
  function Answered(s: State, es: seq<Event>, nums: seq<nat>, c: Conn): set<nat>
    requires |nums| == |es|
    decreases |es|
  {
    if es == [] then {}
    else
      var n := |es| - 1;
      Answered(s, es[..n], nums[..n], c) + if Answers(Run(s, es[..n]), es[n], c) then {nums[n]} else {}
  }

  /** The server answers requests that have been made, each once but in any order, and answers
      request n with object n, or with the end of the search after the last one. */
  ghost predicate Served(script: Script, s: State, es: seq<Event>, nums: seq<nat>)
    requires |nums| == |es|
    decreases |es|
  {
    es == [] ||
    var n := |es| - 1;
    && Served(script, s, es[..n], nums[..n])
    && forall c :: Answers(Run(s, es[..n]), es[n], c) ==>
         && nums[n] < Asked(s, es[..n], c)
         && nums[n] !in Answered(s, es[..n], nums[..n], c)
         && (es[n].ObjectEvent? ==> nums[n] < |script(c)| && es[n].obj == script(c)[nums[n]])
         && (es[n].EndEvent? ==> nums[n] == |script(c)|)
  }

  function From(delivered: seq<(Conn, Obj)>, c: Conn): seq<Obj> {
    if delivered == [] then []
    else
      var n := |delivered| - 1;
      From(delivered[..n], c) + if delivered[n].0 == c then [delivered[n].1] else []
  }

  /** Requests and answers balance, the first ones have been answered, and the objects are a prefix
      of what the server has, the whole of it at the end. */
  predicate Tally(script: seq<Obj>, objs: seq<Obj>, answered: set<nat>, asked: int, requests: nat, live: bool, finished: bool) {
    && answered == Below(|answered|) && asked == |answered| + requests
    && (live ==> |objs| == |answered|)
    && objs <= script && (finished ==> objs == script)
  }

  /** Since no more than one request is outstanding, the requests are answered in order. */
  ghost predicate InOrder(script: Script, conns: set<Conn>, es: seq<Event>, nums: seq<nat>, c: Conn)
    requires |nums| == |es|
  {
    var s := Run(Initial(conns), es);
    Tally(script(c), From(s.delivered, c), Answered(Initial(conns), es, nums, c), Asked(Initial(conns), es, c),
          Requests(s, c), c in s.connections && c !in s.failed, c in conns && c !in s.connections)
  }

  lemma {:induction false} TallyAnswer(script: seq<Obj>, objs: seq<Obj>, answered: set<nat>, asked: int, e: Event, requests: nat, n: nat)
    requires Tally(script, objs, answered, asked, 1, true, false)
    requires n < asked && n !in answered && (e.ObjectEvent? || e.EndEvent? || e.FailEvent?)
    requires e.ObjectEvent? ==> n < |script| && e.obj == script[n]
    requires e.EndEvent? ==> n == |script|
    ensures Tally(script, objs + if e.ObjectEvent? then [e.obj] else [], answered + {n}, asked + requests,
                  requests, e.ObjectEvent?, e.EndEvent?)
  {
    assert n == |answered| && answered + {n} == Below(n + 1);
  }

  lemma {:induction false} AnswerKeepsOrder(script: Script, conns: set<Conn>, es: seq<Event>, nums: seq<nat>, c: Conn)
    requires |nums| == |es| && es != [] && InOrder(script, conns, es[..|es| - 1], nums[..|es| - 1], c)
    requires Served(script, Initial(conns), es, nums)
    requires Answers(Run(Initial(conns), es[..|es| - 1]), es[|es| - 1], c)
    ensures InOrder(script, conns, es, nums, c)
  {
    var n, init := |es| - 1, Initial(conns);
    var s, e := Run(init, es[..n]), es[n];
    var s' := Step(s, e);
    BlastSetIsSound(conns, es[..n]);
    StepKeepsInv(conns, s, e);
    FromOneMore(s.delivered, s'.delivered, s, e, c);
    AnswerKeepsSets(conns, s, e, c);
    var objs, answered, asked := From(s.delivered, c), Answered(init, es[..n], nums[..n], c), Asked(init, es[..n], c);
    assert Tally(script(c), objs, answered, asked, Requests(s, c), c in s.connections && c !in s.failed,
                 c in conns && c !in s.connections);
    TallyAnswer(script(c), objs, answered, asked, e, Requests(s', c), nums[n]);
    assert Tally(script(c), From(s'.delivered, c), Answered(init, es, nums, c), Asked(init, es, c), Requests(s', c),
                 c in s'.connections && c !in s'.failed, c in conns && c !in s'.connections);
  }

  /** What an answer on c does to c. */
  lemma {:induction false} AnswerKeepsSets(conns: set<Conn>, s: State, e: Event, c: Conn)
    requires Inv(conns, s) && Answers(s, e, c)
    ensures c in s.connections && (c in Step(s, e).connections <==> !e.EndEvent?)
    ensures c in Step(s, e).failed <==> e.FailEvent?
  {
    assert Requests(s, c) <= 1;
    if e.ObjectEvent? {
      ArrivalKeepsSets(conns, s, c, e.obj, e.during);
    }
  }

  lemma {:induction false} OtherKeepsOrder(script: Script, conns: set<Conn>, es: seq<Event>, nums: seq<nat>, c: Conn)
    requires |nums| == |es| && es != [] && InOrder(script, conns, es[..|es| - 1], nums[..|es| - 1], c)
    requires !Answers(Run(Initial(conns), es[..|es| - 1]), es[|es| - 1], c)
    ensures InOrder(script, conns, es, nums, c)
  {
    var n, init := |es| - 1, Initial(conns);
    var s, e := Run(init, es[..n]), es[n];
    var s' := Step(s, e);
    BlastSetIsSound(conns, es[..n]);
    StepKeepsInv(conns, s, e);
    FromOneMore(s.delivered, s'.delivered, s, e, c);
    OthersStay(conns, s, e, c);
    var objs, answered, asked := From(s.delivered, c), Answered(init, es[..n], nums[..n], c), Asked(init, es[..n], c);
    assert Tally(script(c), objs, answered, asked, Requests(s, c), c in s.connections && c !in s.failed,
                 c in conns && c !in s.connections);
    assert Answered(init, es, nums, c) == answered;
    assert Tally(script(c), From(s'.delivered, c), Answered(init, es, nums, c), Asked(init, es, c), Requests(s', c),
                 c in s'.connections && c !in s'.failed, c in conns && c !in s'.connections);
  }

  lemma {:induction false} FromOneMore(before: seq<(Conn, Obj)>, after: seq<(Conn, Obj)>, s: State, e: Event, c: Conn)
    requires after == before + if e.ObjectEvent? && Enabled(s, e) then [(e.c, e.obj)] else []
    ensures From(after, c) == From(before, c) + if e.ObjectEvent? && Answers(s, e, c) then [e.obj] else []
  {
    if e.ObjectEvent? && Enabled(s, e) {
      assert after[..|after| - 1] == before;
    } else {
      assert after == before;
    }
  }

  /** An event that answers nothing on c neither ends nor fails it. */
  lemma {:induction false} OthersStay(conns: set<Conn>, s: State, e: Event, c: Conn)
    requires Inv(conns, s) && !Answers(s, e, c)
    ensures (c in Step(s, e).connections <==> c in s.connections) && (c in Step(s, e).failed <==> c in s.failed)
  {
    if Enabled(s, e) {
      match e
      case ControlEvent(control) => ControlKeepsInv(conns, s, control, {});
      case ObjectEvent(d, obj, during) => ArrivalKeepsSets(conns, s, d, obj, during);
      case _ =>
    }
  }

  lemma {:induction false} ArrivalKeepsSets(conns: set<Conn>, s: State, c: Conn, obj: Obj, during: seq<Control>)
    requires Inv(conns, s) && Requests(s, c) > 0
    ensures Arrived(s, c, obj, during).connections == s.connections && Arrived(s, c, obj, during).failed == s.failed
  {
    var taken := s.(requests := s.requests[c := Requests(s, c) - 1], delivered := s.delivered + [(c, obj)]);
    assert forall d :: Requests(taken, d) == if d == c then 0 else Requests(s, d);
    ControlsKeepInv(conns, taken, during, {c});
  }

  /** Though the server may answer outstanding requests in any order, what has been delivered from a
      connection is always a prefix of what the server has for it, and all of that once it has
      finished: nothing twice, nothing lost, in order. */
  lemma {:induction false} DeliveredInOrder(script: Script, conns: set<Conn>, es: seq<Event>, nums: seq<nat>, c: Conn)
    requires |nums| == |es| && Served(script, Initial(conns), es, nums)
    ensures InOrder(script, conns, es, nums, c)
    ensures var s := Run(Initial(conns), es);
            From(s.delivered, c) <= script(c) && (c in conns && c !in s.connections ==> From(s.delivered, c) == script(c))
    decreases |es|
  {
    if es == [] {
      assert Tally(script(c), [], {}, 0, 0, c in conns, false);
    } else {
      DeliveredInOrder(script, conns, es[..|es| - 1], nums[..|es| - 1], c);
      if Answers(Run(Initial(conns), es[..|es| - 1]), es[|es| - 1], c) {
        AnswerKeepsOrder(script, conns, es, nums, c);
      } else {
        OtherKeepsOrder(script, conns, es, nums, c);
      }
    }
  }

  // ---------------------------------------------------------------- pausing

  /** Nobody resumes the set; a set that is started while paused asks for nothing. */
  predicate LeavesPaused(e: Event) {
    match e
    case ControlEvent(control) => control.PauseCall?
    case ObjectEvent(_, _, during) => ResumeCall !in during
    case _ => true
  }

  lemma {:induction false} PausesOnly(s: State, controls: seq<Control>)
    requires ResumeCall !in controls
    ensures var s' := AllControlled(s, controls);
            s' == s.(paused := s'.paused) && (s.paused || controls != [] ==> s'.paused)
  {
    if controls != [] {
      var n := |controls| - 1;
      assert controls[n] in controls && ResumeCall !in controls[..n];
      PausesOnly(s, controls[..n]);
    }
  }

  lemma {:induction false} PausedStep(s: State, e: Event, c: Conn)
    requires s.paused && LeavesPaused(e)
    ensures Step(s, e).paused && Requests(Step(s, e), c) <= Requests(s, c)
    ensures e.ObjectEvent? && Enabled(s, e) ==>
              e.c in Step(s, e).blocking && Requests(Step(s, e), e.c) == Requests(s, e.c) - 1
  {
    if e.ObjectEvent? && Enabled(s, e) {
      PausesOnly(s.(requests := s.requests[e.c := Requests(s, e.c) - 1], delivered := s.delivered + [(e.c, e.obj)]), e.during);
    }
  }

  /** After pause(), and until somebody resumes the set, no request is made on any connection, and one
      on which an object arrives blocks. */
  lemma {:induction false} PauseHolds(s: State, es: seq<Event>, e: Event, c: Conn)
    requires (forall x :: x in es ==> LeavesPaused(x)) && LeavesPaused(e)
    ensures var before := Run(Step(s, ControlEvent(PauseCall)), es);
            var after := Step(before, e);
            && Requests(before, c) <= Requests(s, c) && Requests(after, c) <= Requests(before, c)
            && (e.ObjectEvent? && Enabled(before, e) ==> e.c in after.blocking && Requests(after, e.c) == Requests(before, e.c) - 1)
            && before.paused && after.paused
    decreases |es|
  {
    var s0 := Step(s, ControlEvent(PauseCall));
    assert s0.paused && Requests(s0, c) == Requests(s, c);
    if es != [] {
      var n := |es| - 1;
      assert es[n] in es && forall x :: x in es[..n] ==> x in es;
      PauseHolds(s, es[..n], es[n], c);
    }
    PausedStep(Run(s0, es), e, c);
  }

  /** A callback that pauses the set last, whatever it did before, keeps its own connection from
      asking for more. */
  lemma {:induction false} PausingCallbackBlocks(s: State, c: Conn, obj: Obj, during: seq<Control>)
    requires Requests(s, c) > 0 && during != [] && during[|during| - 1] == PauseCall
    ensures Arrived(s, c, obj, during).paused && c in Arrived(s, c, obj, during).blocking
  {
  }

  /** resume() asks at once on every blocking connection of a set that has been started. */
  lemma {:induction false} ResumeAsks(s: State, c: Conn)
    ensures var s' := Step(s, ControlEvent(ResumeCall));
            && !s'.paused
            && Requests(s', c) == Requests(s, c) + (if s.started && c in s.blocking then 1 else 0)
            && s'.blocking == if s.started then {} else s.blocking
  {
  }
}
