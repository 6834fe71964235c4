/** A search's worker processes, the thread that feeds them, and the blast channel. */
module WorkerQueue {
  import opened Wrappers
  import opened Sequences

  /** Objects of the scope are numbered in the order in which the scope yields them. */
  datatype Message = Object(obj: nat) | EndOfSearch

  const QUEUE_SIZE := 1000

  datatype Feeder = Putting | Joining | Closing | Finished

  /** A worker in run(), before the step named. */
  datatype Worker =
    | Waiting
    | Evaluating(obj: nat)
    | Sending(obj: nat)
    | Finishing(obj: nat)       // before task_done()
    | Dead(lost: Option<nat>)   // died, perhaps holding an object

  /** `next` objects have been put; `unfinished` is the JoinableQueue's own counter.  `sent`,
      `evaluated` and `done` are history. */
  datatype State = State(
    feeder: Feeder, next: nat, queue: seq<nat>, unfinished: int, workers: map<nat, Worker>,
    channel: seq<Message>, evaluated: set<nat>, sent: set<nat>, done: set<nat>)

  datatype Event =
    | Put                // the feeder puts the next object, or moves on to join()
    | JoinReturns
    | Close              // the empty object goes out
    | Take(w: nat)
    | Decide(w: nat)     // evaluate() returns
    | Send(w: nat)
    | TaskDone(w: nat)
    | Die(w: nat)        // an exception or a signal, at any point

  /** A search: the length of its scope and what its filters decide. */
  datatype Search = Search(size: nat, accepts: nat -> bool)

  function Start(workers: set<nat>): State {
    State(Putting, 0, [], 0, map w | w in workers :: Waiting, [], {}, {}, {})
  }

  /** A step that is not enabled does nothing. */
  function Step(search: Search, s: State, e: Event): State {
    match e
    case Put =>
      if !s.feeder.Putting? then s
      else if s.next >= search.size then s.(feeder := Joining)
      else if |s.queue| >= QUEUE_SIZE then s
      else s.(queue := s.queue + [s.next], next := s.next + 1, unfinished := s.unfinished + 1)
    case JoinReturns => if s.feeder.Joining? && s.unfinished == 0 then s.(feeder := Closing) else s
    case Close =>
      if s.feeder.Closing? then s.(feeder := Finished, channel := s.channel + [EndOfSearch]) else s
    case _ => if e.w in s.workers then WorkerStep(search, s, e, s.workers[e.w]) else s
  }

  function WorkerStep(search: Search, s: State, e: Event, x: Worker): State
    requires !e.Put? && !e.JoinReturns? && !e.Close?
  {
    match e
    case Take(w) =>
      if x.Waiting? && s.queue != []
      then s.(queue := s.queue[1..], workers := s.workers[w := Evaluating(s.queue[0])]) else s
    case Decide(w) =>
      if x.Evaluating?
      then s.(evaluated := s.evaluated + {x.obj},
              workers := s.workers[w := if search.accepts(x.obj) then Sending(x.obj) else Finishing(x.obj)])
      else s
    case Send(w) =>
      if x.Sending?
      then s.(channel := s.channel + [Object(x.obj)], sent := s.sent + {x.obj}, workers := s.workers[w := Finishing(x.obj)])
      else s
    case TaskDone(w) =>
      if x.Finishing?
      then s.(unfinished := s.unfinished - 1, done := s.done + {x.obj}, workers := s.workers[w := Waiting]) else s
    case Die(w) =>
      if x.Dead? then s else s.(workers := s.workers[w := Dead(Holds(x))])
  }

  function Holds(x: Worker): Option<nat> {
    match x
    case Waiting => None
    case Dead(lost) => lost
    case _ => Some(x.obj)
  }

  function Run(search: Search, s: State, es: seq<Event>): State
    decreases |es|
  {
    if es == [] then s else Step(search, Run(search, s, es[..|es| - 1]), es[|es| - 1])
  }

  // ---------------------------------------------------------------- the invariant

  /** Every object that has been put is in exactly one place. */
  ghost predicate Placed(s: State) {
    && (forall i, j :: 0 <= i < j < |s.queue| ==> s.queue[i] != s.queue[j])
    && (forall o :: o in s.queue ==> o < s.next && o !in s.done)
    && (forall o :: o in s.done ==> o < s.next)
    && (forall w :: w in s.workers && Holds(s.workers[w]).Some? ==>
          var o := Holds(s.workers[w]).value; o < s.next && o !in s.queue && o !in s.done)
    && (forall v, w :: v in s.workers && w in s.workers && v != w && Holds(s.workers[v]).Some? ==>
          Holds(s.workers[v]) != Holds(s.workers[w]))
  }

  /** What has become of the objects so far. */
  ghost predicate Decided(search: Search, s: State) {
    && (forall o :: o in s.sent ==> search.accepts(o) && o < s.next && o !in s.queue && o in s.evaluated)
    && (forall o :: o in s.done ==> o in s.evaluated && (search.accepts(o) ==> o in s.sent))
    && (forall w :: w in s.workers ==>
          match s.workers[w]
          case Evaluating(o) => o !in s.sent
          case Sending(o) => o !in s.sent && o in s.evaluated && search.accepts(o)
          case Finishing(o) => o in s.evaluated && (search.accepts(o) ==> o in s.sent)
          case _ => true)
  }

  function Count(channel: seq<Message>, m: Message): nat {
    if channel == [] then 0
    else Count(channel[..|channel| - 1], m) + if channel[|channel| - 1] == m then 1 else 0
  }

  ghost predicate ChannelInv(s: State) {
    && (forall o :: Count(s.channel, Object(o)) == if o in s.sent then 1 else 0)
    && (if s.feeder.Finished?
        then s.channel != [] && s.channel[|s.channel| - 1] == EndOfSearch && EndOfSearch !in s.channel[..|s.channel| - 1]
        else EndOfSearch !in s.channel)
  }

  ghost predicate Inv(search: Search, s: State) {
    && Placed(s) && Decided(search, s) && ChannelInv(s)
    && s.next <= search.size
    && s.unfinished == s.next - |s.done|
    && (!s.feeder.Putting? ==> s.next == search.size)
    && (s.feeder.Closing? || s.feeder.Finished? ==> s.unfinished == 0)
  }

  lemma {:induction false} CountSnoc(channel: seq<Message>, x: Message, m: Message)
    ensures Count(channel + [x], m) == Count(channel, m) + if x == m then 1 else 0
  {
    assert (channel + [x])[..|channel|] == channel;
  }

  /** Once the counter is zero, every object has been done. */
  lemma {:induction false} AllDone(search: Search, s: State)
    requires Placed(s) && s.unfinished == s.next - |s.done| && s.unfinished == 0
    ensures s.done == Below(s.next)
  {
    BelowSize(s.next);
    assert s.done <= Below(s.next);
    assert |Below(s.next) - s.done| == |Below(s.next)| - |s.done|;
  }

  /** ... so nobody holds an object any more, and nothing can be sent. */
  lemma {:induction false} NothingHeld(search: Search, s: State)
    requires Inv(search, s) && s.unfinished == 0
    ensures s.queue == []
    ensures forall w :: w in s.workers ==> Holds(s.workers[w]).None?
  {
    assert |s.queue| > 0 ==> s.queue[0] in s.queue;
    AllDone(search, s);
  }

  // ---------------------------------------------------------------- every step keeps it

  lemma {:induction false} PutKeepsInv(search: Search, s: State)
    requires Inv(search, s)
    ensures Inv(search, Step(search, s, Put))
  {
    var s' := Step(search, s, Put);
    assert forall i :: 0 <= i < |s.queue| ==> s.queue[i] in s.queue;
    assert ChannelInv(s');
  }

  lemma {:induction false} CloseKeepsInv(search: Search, s: State)
    requires Inv(search, s)
    ensures Inv(search, Step(search, s, Close))
  {
    var s' := Step(search, s, Close);
    if s.feeder.Closing? {
      forall o ensures Count(s'.channel, Object(o)) == if o in s'.sent then 1 else 0 {
        CountSnoc(s.channel, EndOfSearch, Object(o));
      }
      assert s'.channel[..|s'.channel| - 1] == s.channel;
    }
  }

  lemma {:induction false} SendKeepsPlaced(search: Search, s: State, w: nat)
    requires Inv(search, s) && w in s.workers && s.workers[w].Sending?
    ensures Placed(Step(search, s, Send(w))) && Decided(search, Step(search, s, Send(w)))
  {
    var s' := Step(search, s, Send(w));
    assert Holds(s'.workers[w]) == Holds(s.workers[w]);
    assert forall v :: v in s.workers && v != w ==> s'.workers[v] == s.workers[v];
  }

  lemma {:induction false} SendKeepsInv(search: Search, s: State, w: nat)
    requires Inv(search, s) && w in s.workers && s.workers[w].Sending?
    ensures Inv(search, Step(search, s, Send(w)))
  {
    var s', o := Step(search, s, Send(w)), s.workers[w].obj;
    if s.feeder.Finished? {
      NothingHeld(search, s);
    }
    SendKeepsPlaced(search, s, w);
    forall p ensures Count(s'.channel, Object(p)) == if p in s'.sent then 1 else 0 {
      CountSnoc(s.channel, Object(o), Object(p));
    }
    assert ChannelInv(s');
  }

  /** Acknowledging an object moves it from its worker to `done`. */
  lemma {:induction false} TaskDoneKeepsPlaced(search: Search, s: State, w: nat)
    requires Inv(search, s) && w in s.workers && s.workers[w].Finishing?
    ensures Placed(Step(search, s, TaskDone(w)))
    ensures s.workers[w].obj !in s.done && s.workers[w].obj < s.next
  {
    var s' := Step(search, s, TaskDone(w));
    assert Holds(s.workers[w]) == Some(s.workers[w].obj);
    assert forall v :: v in s.workers && v != w ==> s'.workers[v] == s.workers[v];
  }

  lemma {:induction false} TaskDoneKeepsDecided(search: Search, s: State, w: nat)
    requires Inv(search, s) && w in s.workers && s.workers[w].Finishing?
    ensures Decided(search, Step(search, s, TaskDone(w)))
  {
    var s' := Step(search, s, TaskDone(w));
    assert forall v :: v in s.workers && v != w ==> s'.workers[v] == s.workers[v];
  }

  lemma {:induction false} TaskDoneKeepsInv(search: Search, s: State, w: nat)
    requires Inv(search, s) && w in s.workers && s.workers[w].Finishing?
    ensures Inv(search, Step(search, s, TaskDone(w)))
  {
    var s', o := Step(search, s, TaskDone(w)), s.workers[w].obj;
    TaskDoneKeepsPlaced(search, s, w);
    TaskDoneKeepsDecided(search, s, w);
    BelowSize(s.next);
    assert s.done + {o} <= Below(s.next) && |s.done + {o}| == |s.done| + 1;
    assert |Below(s.next) - (s.done + {o})| == |Below(s.next)| - |s.done + {o}|;
    assert s.unfinished > 0;
    assert ChannelInv(s');
  }

  lemma {:induction false} TakeKeepsInv(search: Search, s: State, w: nat)
    requires Inv(search, s) && w in s.workers && s.workers[w].Waiting? && s.queue != []
    ensures Inv(search, Step(search, s, Take(w)))
  {
    var s' := Step(search, s, Take(w));
    assert s.queue[0] in s.queue;
    assert forall o :: o in s'.queue ==> o in s.queue;
    assert s.queue[0] !in s'.queue;
    assert forall v :: v in s.workers && v != w ==> s'.workers[v] == s.workers[v];
    assert ChannelInv(s');
  }

  lemma {:induction false} DecideOrDieKeepsPlaced(search: Search, s: State, e: Event)
    requires Inv(search, s) && (e.Decide? || e.Die?) && e.w in s.workers
    ensures Placed(Step(search, s, e))
  {
    var s' := Step(search, s, e);
    assert Holds(s'.workers[e.w]) == Holds(s.workers[e.w]);
    assert forall v :: v in s.workers && v != e.w ==> s'.workers[v] == s.workers[v];
  }

  lemma {:induction false} DecideOrDieKeepsDecided(search: Search, s: State, e: Event)
    requires Inv(search, s) && (e.Decide? || e.Die?) && e.w in s.workers
    ensures Decided(search, Step(search, s, e))
  {
    var s' := Step(search, s, e);
    assert forall v :: v in s.workers && v != e.w ==> s'.workers[v] == s.workers[v];
  }

  lemma {:induction false} DecideOrDieKeepsInv(search: Search, s: State, e: Event)
    requires Inv(search, s) && (e.Decide? || e.Die?)
    ensures Inv(search, Step(search, s, e))
  {
    if e.w in s.workers {
      DecideOrDieKeepsPlaced(search, s, e);
      DecideOrDieKeepsDecided(search, s, e);
      assert ChannelInv(Step(search, s, e));
    }
  }

  lemma {:induction false} StepKeepsInv(search: Search, s: State, e: Event)
    requires Inv(search, s)
    ensures Inv(search, Step(search, s, e))
  {
    match e
    case Put => PutKeepsInv(search, s);
    case Close => CloseKeepsInv(search, s);
    case JoinReturns =>
    case Take(w) =>
      if w in s.workers && s.workers[w].Waiting? && s.queue != [] { TakeKeepsInv(search, s, w); }
    case Send(w) =>
      if w in s.workers && s.workers[w].Sending? { SendKeepsInv(search, s, w); }
    case TaskDone(w) =>
      if w in s.workers && s.workers[w].Finishing? { TaskDoneKeepsInv(search, s, w); }
    case _ => DecideOrDieKeepsInv(search, s, e);
  }

  lemma {:induction false} RunKeepsInv(search: Search, workers: set<nat>, es: seq<Event>)
    ensures Inv(search, Run(search, Start(workers), es))
    decreases |es|
  {
    if es != [] {
      RunKeepsInv(search, workers, es[..|es| - 1]);
      StepKeepsInv(search, Run(search, Start(workers), es[..|es| - 1]), es[|es| - 1]);
    }
  }

  /** In every interleaving, whichever workers die: if the end of the search has been announced,
      every object of the scope has been evaluated, every accepted object has been sent exactly
      once and no other, and the announcement is the last message. */
  lemma {:induction false} EndComesLast(search: Search, workers: set<nat>, es: seq<Event>)
    requires EndOfSearch in Run(search, Start(workers), es).channel
    ensures var s := Run(search, Start(workers), es);
            && (forall o: nat :: o < search.size ==> o in s.evaluated)
            && (forall o: nat :: Count(s.channel, Object(o)) == if o < search.size && search.accepts(o) then 1 else 0)
            && s.channel[|s.channel| - 1] == EndOfSearch
            && EndOfSearch !in s.channel[..|s.channel| - 1]
  {
    var s := Run(search, Start(workers), es);
    RunKeepsInv(search, workers, es);
    AllDone(search, s);
    assert s.done == Below(search.size);
  }

  /** A worker that dies with an object in hand keeps the end from ever being announced. */
  lemma {:induction false} LostObjectBlocksEnd(search: Search, workers: set<nat>, es: seq<Event>, w: nat)
    requires var s := Run(search, Start(workers), es);
             w in s.workers && s.workers[w].Dead? && s.workers[w].lost.Some?
    ensures EndOfSearch !in Run(search, Start(workers), es).channel
  {
    var s := Run(search, Start(workers), es);
    RunKeepsInv(search, workers, es);
    if s.unfinished == 0 {
      NothingHeld(search, s);
    }
  }

  // ---------------------------------------------------------------- when the end can still come

  ghost predicate Held(s: State, o: nat) {
    exists w :: w in s.workers && Holds(s.workers[w]) == Some(o)
  }

  /** No object that has been put is forgotten. */
  ghost predicate Covered(s: State) {
    forall o: nat :: o < s.next ==> o in s.queue || o in s.done || Held(s, o)
  }

  lemma {:induction false} StepKeepsCovered(search: Search, s: State, e: Event)
    requires Covered(s)
    ensures Covered(Step(search, s, e))
  {
    var s' := Step(search, s, e);
    forall o: nat | o < s'.next ensures o in s'.queue || o in s'.done || Held(s', o) {
      if o < s.next && o !in s.queue && o !in s.done {
        var w :| w in s.workers && Holds(s.workers[w]) == Some(o);
        assert Holds(s'.workers[w]) == Some(o) || o in s'.done;
      } else if o in s.queue && e.Take? && o !in s'.queue {
        assert o == s.queue[0] && Holds(s'.workers[e.w]) == Some(o);
      }
    }
  }

  ghost predicate Sound(search: Search, s: State) { Inv(search, s) && Covered(s) }

  lemma {:induction false} RunKeepsSound(search: Search, s: State, es: seq<Event>)
    requires Sound(search, s)
    ensures Sound(search, Run(search, s, es))
    decreases |es|
  {
    if es != [] {
      var before := Run(search, s, es[..|es| - 1]);
      RunKeepsSound(search, s, es[..|es| - 1]);
      StepKeepsInv(search, before, es[|es| - 1]);
      StepKeepsCovered(search, before, es[|es| - 1]);
    }
  }

  lemma {:induction false} RunCons(search: Search, s: State, e: Event, es: seq<Event>)
    ensures Run(search, s, [e] + es) == Run(search, Step(search, s, e), es)
    decreases |es|
  {
    if es == [] {
      assert [e] + es == [e] && [e][..0] == [];
    } else {
      PrefixAndLast([e], es);
      RunCons(search, s, e, es[..|es| - 1]);
    }
  }

  predicate SomeoneLives(s: State) {
    exists w :: w in s.workers && !s.workers[w].Dead?
  }

  /** Nothing has been lost, and somebody is left for what there is to do. */
  ghost predicate CanEnd(search: Search, s: State) {
    && (forall w :: w in s.workers && s.workers[w].Dead? ==> s.workers[w].lost.None?)
    && (SomeoneLives(s) || (s.queue == [] && s.next == search.size))
  }

  function Before(f: Feeder): nat {
    match f
    case Putting => 3
    case Joining => 2
    case Closing => 1
    case Finished => 0
  }

  function Evaluators(s: State): set<nat> { set w | w in s.workers && s.workers[w].Evaluating? }
  function Senders(s: State): set<nat> { set w | w in s.workers && s.workers[w].Sending? }
  function Finishers(s: State): set<nat> { set w | w in s.workers && s.workers[w].Finishing? }

  /** A live worker that holds an object goes on with it. */
  function GoOn(w: nat, x: Worker): Event
    requires !x.Dead? && Holds(x).Some?
  {
    match x
    case Evaluating(_) => Decide(w)
    case Sending(_) => Send(w)
    case _ => TaskDone(w)
  }

  lemma {:induction false} GoingOn(search: Search, s: State, w: nat)
    requires CanEnd(search, s) && w in s.workers && !s.workers[w].Dead? && Holds(s.workers[w]).Some?
    ensures var t := Step(search, s, GoOn(w, s.workers[w]));
            && CanEnd(search, t) && t.feeder == s.feeder && t.next == s.next && t.queue == s.queue
            && (|| Evaluators(t) < Evaluators(s)
                || (Evaluators(t) == Evaluators(s)
                    && (Senders(t) < Senders(s) || (Senders(t) == Senders(s) && Finishers(t) < Finishers(s)))))
  {
    var t := Step(search, s, GoOn(w, s.workers[w]));
    assert forall v :: v in s.workers && v != w ==> t.workers[v] == s.workers[v];
    assert !t.workers[w].Dead?;
    assert w in Evaluators(s) ==> w !in Evaluators(t);
    assert w in Senders(s) ==> w !in Senders(t);
    assert w in Finishers(s) ==> w !in Finishers(t);
  }

  /** Nobody holds an object and none is queued: the feeder goes on. */
  lemma {:induction false} FeederGoesOn(search: Search, s: State) returns (e: Event)
    requires Sound(search, s) && CanEnd(search, s) && s.queue == [] && !s.feeder.Finished?
    requires forall w :: w in s.workers ==> Holds(s.workers[w]).None?
    ensures var t := Step(search, s, e);
            CanEnd(search, t) && (Before(t.feeder) < Before(s.feeder) || (t.feeder == s.feeder && s.next < t.next))
  {
    e := match s.feeder case Putting => Put case Joining => JoinReturns case _ => Close;
    if s.feeder.Joining? {
      assert forall o: nat :: o < s.next ==> !Held(s, o);
      assert s.done == Below(s.next);
      BelowSize(s.next);
    }
  }

  lemma {:induction false} TakingOn(search: Search, s: State, w: nat)
    requires CanEnd(search, s) && s.queue != [] && w in s.workers && s.workers[w].Waiting?
    ensures var t := Step(search, s, Take(w));
            CanEnd(search, t) && t.feeder == s.feeder && t.next == s.next && |t.queue| < |s.queue|
  {
    var t := Step(search, s, Take(w));
    assert forall v :: v in s.workers && v != w ==> t.workers[v] == s.workers[v];
    assert !t.workers[w].Dead?;
  }

  /** Then there is a way to the end. */
  lemma {:induction false} GetsToTheEnd(search: Search, s: State) returns (es: seq<Event>)
    requires Sound(search, s) && CanEnd(search, s)
    ensures EndOfSearch in Run(search, s, es).channel
    decreases Before(s.feeder), search.size - s.next, |s.queue|, Evaluators(s), Senders(s), Finishers(s)
  {
    if s.feeder.Finished? {
      es := [];
    } else {
      var e;
      if w :| w in s.workers && Holds(s.workers[w]).Some? {
        e := GoOn(w, s.workers[w]);
        GoingOn(search, s, w);
      } else if s.queue != [] {
        var w :| w in s.workers && !s.workers[w].Dead?;
        e := Take(w);
        TakingOn(search, s, w);
      } else {
        e := FeederGoesOn(search, s);
      }
      StepKeepsInv(search, s, e);
      StepKeepsCovered(search, s, e);
      var rest := GetsToTheEnd(search, Step(search, s, e));
      RunCons(search, s, e, rest);
      es := [e] + rest;
    }
  }

  /** What has been lost stays lost, and the dead do no work. */
  lemma {:induction false} StaysStuck(search: Search, s: State, e: Event)
    requires Sound(search, s) && !CanEnd(search, s)
    ensures !CanEnd(search, Step(search, s, e))
  {
    var t := Step(search, s, e);
    if w :| w in s.workers && s.workers[w].Dead? && s.workers[w].lost.Some? {
      assert t.workers[w] == s.workers[w];
    } else {
      assert forall w :: w in s.workers ==> s.workers[w].Dead?;
      assert t.workers == s.workers;
    }
  }

  lemma {:induction false} StuckForGood(search: Search, s: State, es: seq<Event>)
    requires Sound(search, s) && !CanEnd(search, s)
    ensures EndOfSearch !in Run(search, s, es).channel
    ensures !CanEnd(search, Run(search, s, es))
    decreases |es|
  {
    RunKeepsSound(search, s, es);
    if es != [] {
      StuckForGood(search, s, es[..|es| - 1]);
      RunKeepsSound(search, s, es[..|es| - 1]);
      StaysStuck(search, Run(search, s, es[..|es| - 1]), es[|es| - 1]);
    }
    StuckUnannounced(search, Run(search, s, es));
  }

  lemma {:induction false} StuckUnannounced(search: Search, s: State)
    requires Sound(search, s) && !CanEnd(search, s)
    ensures EndOfSearch !in s.channel
  {
    if s.unfinished == 0 {
      NothingHeld(search, s);
    }
  }

  /** In every reachable state, the end of the search can still be announced if and only if no dead
      worker holds an object and a worker lives or nothing is left to evaluate. */
  lemma {:induction false} EndPossibleExactly(search: Search, workers: set<nat>, es: seq<Event>)
    ensures var s := Run(search, Start(workers), es);
            CanEnd(search, s) <==> exists more :: EndOfSearch in Run(search, s, more).channel
  {
    RunKeepsInv(search, workers, []);
    RunKeepsSound(search, Start(workers), es);
    var s := Run(search, Start(workers), es);
    if CanEnd(search, s) {
      var more := GetsToTheEnd(search, s);
    } else {
      forall more ensures EndOfSearch !in Run(search, s, more).channel {
        StuckForGood(search, s, more);
      }
    }
  }

  // ---------------------------------------------------------------- in scope order

  /** How many objects have been taken from the queue. */
  function Taken(s: State): int { s.next - |s.queue| }

  /** The queue holds what comes next in the scope, in order, and no more than it has room for. */
  ghost predicate InOrder(s: State) {
    && Taken(s) >= 0 && |s.queue| <= 1000
    && forall i :: 0 <= i < |s.queue| ==> s.queue[i] == Taken(s) + i
  }

  lemma {:induction false} StepKeepsOrder(search: Search, s: State, e: Event)
    requires InOrder(s)
    ensures InOrder(Step(search, s, e))
  {
  }

  lemma {:induction false} RunKeepsOrder(search: Search, workers: set<nat>, es: seq<Event>)
    ensures InOrder(Run(search, Start(workers), es))
    decreases |es|
  {
    if es != [] {
      RunKeepsOrder(search, workers, es[..|es| - 1]);
      StepKeepsOrder(search, Run(search, Start(workers), es[..|es| - 1]), es[|es| - 1]);
    }
  }

  /** In every run, the objects are taken in the order of the scope: after n have been taken, the next
      worker that is ready gets object n. */
  lemma {:induction false} TakenInOrder(search: Search, workers: set<nat>, es: seq<Event>, w: nat)
    ensures var s := Run(search, Start(workers), es);
            w in s.workers && s.workers[w].Waiting? && s.queue != [] ==>
              var s' := Step(search, s, Take(w));
              Taken(s) >= 0 && s'.workers == s.workers[w := Evaluating(Taken(s))] && Taken(s') == Taken(s) + 1
  {
    RunKeepsOrder(search, workers, es);
  }

  /** The accepted ones among the first n objects. */
  function AcceptedBelow(search: Search, n: nat): seq<Message> {
    if n == 0 then []
    else AcceptedBelow(search, n - 1) + if search.accepts(n - 1) then [Object(n - 1)] else []
  }

  /** The channel holds the accepted ones among the first n objects, and perhaps the end. */
  ghost predicate Announces(search: Search, s: State, n: nat) {
    s.channel == AcceptedBelow(search, n) + if s.feeder.Finished? then [EndOfSearch] else []
  }

  /** What the only worker has sent. */
  ghost predicate OneInOrder(search: Search, s: State, w: nat) {
    && s.workers.Keys == {w}
    && match s.workers[w]
       case Waiting => Taken(s) >= 0 && Announces(search, s, Taken(s))
       case Evaluating(o) => o == Taken(s) - 1 && Announces(search, s, o)
       case Sending(o) => o == Taken(s) - 1 && search.accepts(o) && Announces(search, s, o)
       case Finishing(o) => o == Taken(s) - 1 && Announces(search, s, Taken(s))
       case Dead(None) => Taken(s) >= 0 && Announces(search, s, Taken(s))
       case Dead(Some(o)) => o == Taken(s) - 1 && (Announces(search, s, o) || Announces(search, s, Taken(s)))
  }

  /** Once the feeder has seen everything done, nothing is queued or held. */
  ghost predicate DoneWith(s: State, w: nat)
    requires w in s.workers
  {
    s.feeder.Closing? || s.feeder.Finished? ==> s.queue == [] && Holds(s.workers[w]).None?
  }

  lemma {:induction false} FeederKeepsOneInOrder(search: Search, s: State, e: Event, w: nat)
    requires InOrder(s) && OneInOrder(search, s, w) && (e.Put? || e.JoinReturns? || e.Close?)
    ensures OneInOrder(search, Step(search, s, e), w)
  {
    var s' := Step(search, s, e);
    assert Taken(s') == Taken(s) && s'.workers == s.workers;
    forall n: nat | Announces(search, s, n) ensures Announces(search, s', n) {
      assert s.feeder.Closing? && e.Close? ==> s.channel == AcceptedBelow(search, n);
    }
  }

  lemma {:induction false} WorkKeepsOneInOrder(search: Search, s: State, e: Event, w: nat)
    requires InOrder(s) && OneInOrder(search, s, w) && DoneWith(s, w) && (e.Decide? || e.Send? || e.TaskDone?) && e.w == w
    ensures OneInOrder(search, Step(search, s, e), w)
  {
    var s', x := Step(search, s, e), s.workers[w];
    assert Taken(s') == Taken(s) && s'.feeder == s.feeder;
    if e.Send? && x.Sending? {
      assert s'.channel == AcceptedBelow(search, x.obj) + [Object(x.obj)];
      assert Announces(search, s', x.obj + 1);
    } else if e.Decide? && x.Evaluating? {
      assert !search.accepts(x.obj) ==> AcceptedBelow(search, x.obj + 1) == AcceptedBelow(search, x.obj);
    }
  }

  lemma {:induction false} OneStaysInOrder(search: Search, s: State, e: Event, w: nat)
    requires InOrder(s) && OneInOrder(search, s, w) && DoneWith(s, w)
    ensures OneInOrder(search, Step(search, s, e), w)
  {
    if e.Put? || e.JoinReturns? || e.Close? {
      FeederKeepsOneInOrder(search, s, e, w);
    } else if (e.Decide? || e.Send? || e.TaskDone?) && e.w == w {
      WorkKeepsOneInOrder(search, s, e, w);
    } else if e.w == w {
      var s' := Step(search, s, e);
      assert s'.channel == s.channel && s'.feeder == s.feeder;
    }
  }

  lemma {:induction false} OneWorkerInOrder(search: Search, w: nat, es: seq<Event>)
    ensures OneInOrder(search, Run(search, Start({w}), es), w)
    decreases |es|
  {
    if es != [] {
      OneWorkerInOrder(search, w, es[..|es| - 1]);
      RunKeepsInv(search, {w}, es[..|es| - 1]);
      RunKeepsOrder(search, {w}, es[..|es| - 1]);
      var s := Run(search, Start({w}), es[..|es| - 1]);
      if s.unfinished == 0 {
        NothingHeld(search, s);
      }
      OneStaysInOrder(search, s, es[|es| - 1], w);
    }
  }

  /** With a single worker, even one that dies, the channel is always the accepted ones among the first
      objects of the scope, in order; and when the end is announced, among all of them. */
  lemma {:induction false} OneWorkerSendsInOrder(search: Search, w: nat, es: seq<Event>) returns (n: nat)
    ensures var s := Run(search, Start({w}), es);
            Announces(search, s, n) && (EndOfSearch in s.channel ==> n == search.size)
  {
    var s := Run(search, Start({w}), es);
    OneWorkerInOrder(search, w, es);
    RunKeepsInv(search, {w}, es);
    RunKeepsOrder(search, {w}, es);
    match s.workers[w] {
      case Evaluating(o) => n := o;
      case Sending(o) => n := o;
      case Dead(Some(o)) => n := if Announces(search, s, o) then o else Taken(s);
      case _ => n := Taken(s);
    }
    if EndOfSearch in s.channel {
      NothingHeld(search, s);
    }
  }
}
