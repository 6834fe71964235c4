/** What the uncached loop decides, said without the loop: an object is accepted, dropped or refused
    with a failure exactly as its filters run, one after the other. */
module Verdicts {
  import opened Wrappers
  import opened Objects
  import opened Filters
  import opened PlainLoop

  // ---------------------------------------------------------------- from one filter to the next

  /** The object as it is given to the first filter. */
  function Fetched(w: World, id: string): ObjState
    requires w.fetch(id).Loaded?
  {
    ObjState(map["Device-Name" := w.serverId + "\0", "_ObjectID" := id + "\0"] + w.fetch(id).values, {})
  }

  ghost function Served(w: World, f: Filter, st: ObjState): Run {
    Exec(w.behaviour(f.digest), st, EMPTY_RESULT)
  }

  /** f reports a score in its interval, and st' is what it leaves, with the score stored. */
  ghost predicate Passes(w: World, f: Filter, st: ObjState, st': ObjState) {
    var run := Served(w, f, st);
    && run.ending.Finished?
    && f.minScore <= run.ending.result.score <= f.maxScore
    && st'.omit == run.state.omit
    && st'.attrs == run.state.attrs["_filter." + f.name + "_score" := w.scoreText(run.ending.result.score)]
  }

  /** f dies, or reports a score outside its interval. */
  ghost predicate Rejects(w: World, f: Filter, st: ObjState) {
    var ending := Served(w, f, st).ending;
    || ending.Died?
    || (ending.Finished? && !(f.minScore <= ending.result.score <= f.maxScore))
  }

  /** f sends what no filter may send, or dies before it is ready. */
  ghost predicate Breaks(w: World, f: Filter, st: ObjState) {
    Served(w, f, st).ending.Aborted?
  }

  /** The objects that the filters are given, in turn; the last one has passed all before it. */
  ghost predicate Passage(w: World, id: string, fs: seq<Filter>, sts: seq<ObjState>) {
    && 0 < |sts| <= |fs| + 1
    && w.fetch(id).Loaded? && sts[0] == Fetched(w, id)
    && forall i :: 0 <= i < |sts| - 1 ==> Passes(w, fs[i], sts[i], sts[i + 1])
  }

  lemma {:induction false} FetchedIsReached(w: World, id: string, fs: seq<Filter>)
    ensures Reached(w, StagesOf(fs), id, 1) == if w.fetch(id).Loaded? then Some(Fetched(w, id)) else None
  {
    assert Reached(w, StagesOf(fs), id, 0) == Some(InitialState(w.serverId, id));
  }

  lemma {:induction false} PassingIsReaching(w: World, id: string, fs: seq<Filter>, n: nat, st: ObjState)
    requires n < |fs|
    ensures Reached(w, StagesOf(fs), id, n + 2) == Some(st) <==>
            Reached(w, StagesOf(fs), id, n + 1).Some? && Passes(w, fs[n], Reached(w, StagesOf(fs), id, n + 1).value, st)
  {
    assert StagesOf(fs)[n + 1] == Runner(fs[n]);
    assert ScoreKey(fs[n].name) == "_filter." + fs[n].name + "_score";
  }

  /** The loop gets the object to filter n in exactly the state that some passage ends in. */
  lemma {:induction false} ReachedByPassage(w: World, id: string, fs: seq<Filter>, sts: seq<ObjState>)
    requires Passage(w, id, fs, sts)
    ensures Reached(w, StagesOf(fs), id, |sts|) == Some(sts[|sts| - 1])
    decreases |sts|
  {
    FetchedIsReached(w, id, fs);
    if |sts| > 1 {
      var n := |sts| - 2;
      assert Passes(w, fs[n], sts[n], sts[n + 1]);
      ReachedByPassage(w, id, fs, sts[..n + 1]);
      PassingIsReaching(w, id, fs, n, sts[n + 1]);
    }
  }

  lemma {:induction false} PassageOfReached(w: World, id: string, fs: seq<Filter>, n: nat) returns (sts: seq<ObjState>)
    requires n <= |fs| && Reached(w, StagesOf(fs), id, n + 1).Some?
    ensures Passage(w, id, fs, sts) && |sts| == n + 1 && Reached(w, StagesOf(fs), id, n + 1) == Some(sts[n])
  {
    FetchedIsReached(w, id, fs);
    if n == 0 {
      sts := [Fetched(w, id)];
    } else {
      PassingIsReaching(w, id, fs, n - 1, Reached(w, StagesOf(fs), id, n + 1).value);
      var before := PassageOfReached(w, id, fs, n - 1);
      sts := before + [Reached(w, StagesOf(fs), id, n + 1).value];
    }
  }

  // ---------------------------------------------------------------- the three decisions

  ghost predicate Accepted(w: World, id: string, fs: seq<Filter>, st: ObjState) {
    exists sts :: Passage(w, id, fs, sts) && |sts| == |fs| + 1 && sts[|fs|] == st
  }

  ghost predicate RejectedAfter(w: World, id: string, fs: seq<Filter>, sts: seq<ObjState>) {
    Passage(w, id, fs, sts) && |sts| <= |fs| && Rejects(w, fs[|sts| - 1], sts[|sts| - 1])
  }

  ghost predicate BrokenAfter(w: World, id: string, fs: seq<Filter>, sts: seq<ObjState>) {
    Passage(w, id, fs, sts) && |sts| <= |fs| && Breaks(w, fs[|sts| - 1], sts[|sts| - 1])
  }

  lemma {:induction false} RejectedIsDropped(w: World, id: string, fs: seq<Filter>, sts: seq<ObjState>)
    requires RejectedAfter(w, id, fs, sts)
    ensures Plain(w, StagesOf(fs), id).verdict == Drop
  {
    var n := |sts|;
    ReachedByPassage(w, id, fs, sts);
    PlainVsReached(w, StagesOf(fs), id, n);
    assert StagesOf(fs)[n] == Runner(fs[n - 1]);
  }

  lemma {:induction false} BrokenIsFailed(w: World, id: string, fs: seq<Filter>, sts: seq<ObjState>)
    requires BrokenAfter(w, id, fs, sts)
    ensures Plain(w, StagesOf(fs), id).verdict == Fail
  {
    var n := |sts|;
    ReachedByPassage(w, id, fs, sts);
    PlainVsReached(w, StagesOf(fs), id, n);
    assert StagesOf(fs)[n] == Runner(fs[n - 1]);
  }

  lemma {:induction false} UnloadableIsDropped(w: World, id: string, fs: seq<Filter>)
    requires w.fetch(id).Unloadable?
    ensures Plain(w, StagesOf(fs), id).verdict == Drop
  {
  }

  lemma {:induction false} PassedIsAccepted(w: World, id: string, fs: seq<Filter>, sts: seq<ObjState>)
    requires Passage(w, id, fs, sts) && |sts| == |fs| + 1
    ensures Plain(w, StagesOf(fs), id) == Outcome(Accept, sts[|fs|])
  {
    ReachedByPassage(w, id, fs, sts);
    PlainVsReached(w, StagesOf(fs), id, |fs| + 1);
  }

  /** One of the four is always the case: the longest passage ends at the last filter, or at one
      that rejects the object or breaks. */
  lemma {:induction false} Decided(w: World, id: string, fs: seq<Filter>, n: nat) returns (sts: seq<ObjState>)
    requires w.fetch(id).Loaded? && n <= |fs| && Reached(w, StagesOf(fs), id, n + 1).Some?
    ensures RejectedAfter(w, id, fs, sts) || BrokenAfter(w, id, fs, sts) || (Passage(w, id, fs, sts) && |sts| == |fs| + 1)
    decreases |fs| - n
  {
    sts := PassageOfReached(w, id, fs, n);
    if n < |fs| && !Rejects(w, fs[n], sts[n]) && !Breaks(w, fs[n], sts[n]) {
      var run := Served(w, fs[n], sts[n]);
      var key := "_filter." + fs[n].name + "_score";
      var st := ObjState(run.state.attrs[key := w.scoreText(run.ending.result.score)], run.state.omit);
      PassingIsReaching(w, id, fs, n, st);
      sts := Decided(w, id, fs, n + 1);
    }
  }

  /** The decision: an object is accepted exactly if every filter passes it, and left as the last one
      left it; it is dropped exactly if it cannot be loaded or a filter that gets it dies or reports a
      score outside its interval; and evaluation fails exactly if a filter that gets it breaks. */
  lemma {:induction false} VerdictExactly(w: World, id: string, fs: seq<Filter>)
    ensures var plain := Plain(w, StagesOf(fs), id);
            && (forall st :: plain == Outcome(Accept, st) <==> Accepted(w, id, fs, st))
            && (plain.verdict == Drop <==> w.fetch(id).Unloadable? || exists sts :: RejectedAfter(w, id, fs, sts))
            && (plain.verdict == Fail <==> exists sts :: BrokenAfter(w, id, fs, sts))
  {
    forall sts | Passage(w, id, fs, sts) && |sts| == |fs| + 1
      ensures Plain(w, StagesOf(fs), id) == Outcome(Accept, sts[|fs|])
    {
      PassedIsAccepted(w, id, fs, sts);
    }
    forall sts | RejectedAfter(w, id, fs, sts) ensures Plain(w, StagesOf(fs), id).verdict == Drop {
      RejectedIsDropped(w, id, fs, sts);
    }
    forall sts | BrokenAfter(w, id, fs, sts) ensures Plain(w, StagesOf(fs), id).verdict == Fail {
      BrokenIsFailed(w, id, fs, sts);
    }
    if w.fetch(id).Unloadable? {
      UnloadableIsDropped(w, id, fs);
    } else {
      FetchedIsReached(w, id, fs);
      var sts := Decided(w, id, fs, 0);
    }
  }

  /** Every stack is the fetcher and some filters. */
  lemma {:induction false} StackOfFilters(stages: seq<Stage>) returns (fs: seq<Filter>)
    requires WellFormed(stages)
    ensures stages == StagesOf(fs)
  {
    fs := seq(|stages| - 1, i requires 0 <= i < |stages| - 1 => stages[i + 1].filter);
    forall i | 0 <= i < |stages| ensures stages[i] == StagesOf(fs)[i] {
      if i > 0 {
        assert StagesOf(fs)[i - 1 + 1] == Runner(fs[i - 1]);
      }
    }
  }

  // ---------------------------------------------------------------- single filters

  ghost function Alone(w: World, f: Filter, id: string): Outcome {
    Plain(w, StagesOf([f]), id)
  }

  /** On a stack of one filter. */
  lemma {:induction false} AloneDecides(w: World, f: Filter, id: string)
    requires w.fetch(id).Loaded?
    ensures Breaks(w, f, Fetched(w, id)) ==> Alone(w, f, id).verdict == Fail
    ensures Rejects(w, f, Fetched(w, id)) ==> Alone(w, f, id).verdict == Drop
    ensures !Breaks(w, f, Fetched(w, id)) && !Rejects(w, f, Fetched(w, id)) ==> Alone(w, f, id).verdict == Accept
  {
    var sts := [Fetched(w, id)];
    assert Passage(w, id, [f], sts);
    VerdictExactly(w, id, [f]);
    if Breaks(w, f, sts[0]) {
      assert BrokenAfter(w, id, [f], sts);
    } else if Rejects(w, f, sts[0]) {
      assert RejectedAfter(w, id, [f], sts);
    } else {
      FetchedIsReached(w, id, [f]);
      var all := Decided(w, id, [f], 0);
      AloneIsPassage(w, f, id, all);
    }
  }

  lemma {:induction false} AloneIsPassage(w: World, f: Filter, id: string, sts: seq<ObjState>)
    requires w.fetch(id).Loaded? && !Breaks(w, f, Fetched(w, id)) && !Rejects(w, f, Fetched(w, id))
    requires RejectedAfter(w, id, [f], sts) || BrokenAfter(w, id, [f], sts) || (Passage(w, id, [f], sts) && |sts| == 2)
    ensures Alone(w, f, id).verdict == Accept
  {
    PassedIsAccepted(w, id, [f], sts);
  }

  /** The end of the pipe drops the object, an unknown command is a failure, and a score is compared
      with both ends of the interval, which belong to it. */
  lemma {:induction false} LastCommandDecides(w: World, f: Filter, id: string, score: real)
    requires w.fetch(id).Loaded?
    ensures w.behaviour(f.digest) == Crash ==> Alone(w, f, id).verdict == Drop
    ensures w.behaviour(f.digest) == Abort ==> Alone(w, f, id).verdict == Fail
    ensures w.behaviour(f.digest) == Report(score) ==>
              Alone(w, f, id).verdict == if f.minScore <= score <= f.maxScore then Accept else Drop
  {
    AloneDecides(w, f, id);
  }

  /** A filter that asks for k and tells by its score whether the answer is a. */
  ghost function Asks(k: Key, a: Option<Value>): Program {
    GetAttribute(k, imap x: Option<Value> | true :: Tells(x, a))
  }

  function Tells(x: Option<Value>, a: Option<Value>): Program {
    Report(if x == a then 1.0 else 0.0)
  }

  ghost predicate Tell(p: Program, st: ObjState, yes: bool) {
    var ending := Exec(p, st, EMPTY_RESULT).ending;
    ending.Finished? && ending.result.score == if yes then 1.0 else 0.0
  }

  /** A filter is answered with the value that the object has. */
  lemma {:induction false} AnswersAreTrue(st: ObjState, k: Key, a: Option<Value>)
    ensures Tell(Asks(k, a), st, a == if k in st.attrs then Some(st.attrs[k]) else None)
  {
    var answer := if k in st.attrs then Some(st.attrs[k]) else None;
    AskedOnce(st, EMPTY_RESULT, k, a, answer);
  }

  lemma {:induction false} AskedOnce(st: ObjState, res: FilterResult, k: Key, a: Option<Value>, answer: Option<Value>)
    requires answer == if k in st.attrs then Some(st.attrs[k]) else None
    ensures Exec(Asks(k, a), st, res).ending
            == Finished(res.(inputs := res.inputs[k := SigOf(st, k)], score := if answer == a then 1.0 else 0.0))
  {
    assert Tells(answer, a) == Report(if answer == a then 1.0 else 0.0);
  }

  /** Also with one that the filter has just set; and it is told whether there was something to omit. */
  lemma {:induction false} EffectsAreTold(st: ObjState, k: Key, v: Value, a: Option<Value>)
    ensures Tell(SetAttribute(k, v, Asks(k, a)), st, a == Some(v))
    ensures Tell(OmitAttribute(k, Report(1.0), Report(0.0)), st, k in st.attrs)
    ensures Exec(GetAttribute(k, imap[]), st, EMPTY_RESULT).ending == Died
  {
    var st' := st.(attrs := st.attrs[k := v]);
    var res := EMPTY_RESULT.(outputs := EMPTY_RESULT.outputs[k := Murmur(v)]);
    AskedOnce(st', res, k, a, Some(v));
  }
}
