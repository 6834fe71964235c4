/** The filter loop without any cache: the meaning that both caches must preserve. */
module PlainLoop {
  import opened Wrappers
  import opened Objects
  import opened Filters

  datatype Filter = Filter(
    name: string, digest: string, dependencies: seq<string>, minScore: real, maxScore: real)

  /** A runner of the stack: the object fetcher or a filter. */
  datatype Stage = Fetcher | Runner(filter: Filter)

  datatype Fetch = Loaded(values: map<Key, Value>) | Unloadable(partial: map<Key, Value>)

  /** Everything outside the server, taken as deterministic.  A digest identifies a
      behaviour, as the source assumes when it removes duplicates and keys its cache. */
  datatype World = World(
    serverId: string,
    fetch: string -> Fetch,
    behaviour: string -> Program,
    scoreText: real -> Value)

  /** Loading an object always sets its data and a display name. */
  predicate Loads(w: World, id: string) {
    w.fetch(id).Loaded? ==> ATTR_DATA in w.fetch(id).values && ATTR_DISPLAY_NAME in w.fetch(id).values
  }

  datatype Verdict = Accept | Drop | Fail
  datatype Outcome = Outcome(verdict: Verdict, state: ObjState)

  function ScoreKey(name: string): Key {
    "_filter." + name + "_score"
  }

  lemma {:induction false} ScoreKeyInjective(a: string, b: string)
    requires ScoreKey(a) == ScoreKey(b)
    ensures a == b
  {
    assert a == ScoreKey(a)[8..|ScoreKey(a)| - 6];
    assert b == ScoreKey(b)[8..|ScoreKey(b)| - 6];
  }

  ghost function RunStage(w: World, stage: Stage, id: string, st: ObjState): Run {
    match stage
    case Fetcher =>
      (match w.fetch(id)
       case Loaded(values) =>
         var st' := st.(attrs := st.attrs + values);
         Run(Finished(FilterResult(map[], map k | k in st'.attrs :: Murmur(st'.attrs[k]), {}, 0.0)), st')
       case Unloadable(partial) => Run(Died, st.(attrs := st.attrs + partial)))
    case Runner(f) => Exec(w.behaviour(f.digest), st, EMPTY_RESULT)
  }

  predicate Threshold(stage: Stage, r: FilterResult) {
    stage.Runner? ==> stage.filter.minScore <= r.score <= stage.filter.maxScore
  }

  /** The object after a stage has accepted it: a filter's score becomes an attribute. */
  function StoreScore(w: World, stage: Stage, st: ObjState, score: real): ObjState {
    match stage
    case Fetcher => st
    case Runner(f) => st.(attrs := st.attrs[ScoreKey(f.name) := w.scoreText(score)])
  }

  datatype Next = Continue(state: ObjState) | Stop(outcome: Outcome)

  function Settle(w: World, stage: Stage, run: Run): Next {
    match run.ending
    case Died => Stop(Outcome(Drop, run.state))
    case Aborted => Stop(Outcome(Fail, run.state))
    case Finished(r) =>
      if Threshold(stage, r)
      then Continue(StoreScore(w, stage, run.state, r.score))
      else Stop(Outcome(Drop, run.state))
  }

  ghost function PlainFrom(w: World, stages: seq<Stage>, id: string, i: nat, st: ObjState): Outcome
    requires i <= |stages|
    decreases |stages| - i
  {
    if i == |stages| then Outcome(Accept, st)
    else match Settle(w, stages[i], RunStage(w, stages[i], id, st))
         case Continue(st') => PlainFrom(w, stages, id, i + 1, st')
         case Stop(outcome) => outcome
  }

  /** The uncached decision on an object and the object it leaves behind. */
  ghost function Plain(w: World, stages: seq<Stage>, id: string): Outcome {
    PlainFrom(w, stages, id, 0, InitialState(w.serverId, id))
  }

  /** The object as the plain loop brings it to stage i, if it gets that far. */
  ghost function Reached(w: World, stages: seq<Stage>, id: string, i: nat): Option<ObjState>
    requires i <= |stages|
  {
    if i == 0 then Some(InitialState(w.serverId, id))
    else match Reached(w, stages, id, i - 1)
         case None => None
         case Some(st) =>
           match Settle(w, stages[i - 1], RunStage(w, stages[i - 1], id, st))
           case Continue(st') => Some(st')
           case Stop(_) => None
  }

  /** The loop read forwards and backwards agree: the plain outcome continues from whatever
      state stage i is reached in, and an object that never reaches stage i is not accepted. */
  lemma {:induction false} PlainVsReached(w: World, stages: seq<Stage>, id: string, i: nat)
    requires i <= |stages|
    ensures match Reached(w, stages, id, i)
            case Some(st) => Plain(w, stages, id) == PlainFrom(w, stages, id, i, st)
            case None => Plain(w, stages, id).verdict != Accept
  {
    if i > 0 {
      PlainVsReached(w, stages, id, i - 1);
    }
  }

  lemma {:induction false} ReachedPrefix(w: World, stages: seq<Stage>, id: string, j: nat, i: nat)
    requires j <= i <= |stages|
    requires Reached(w, stages, id, i).Some?
    ensures Reached(w, stages, id, j).Some?
    decreases i - j
  {
    if j < i {
      ReachedPrefix(w, stages, id, j, i - 1);
    }
  }

  // ---------------------------------------------------------------- who touches which key

  ghost predicate MayRead(p: Program, k: Key)
    decreases p
  {
    match p
    case GetAttribute(key, answers) => k == key || exists a :: a in answers && MayRead(answers[a], k)
    case SetAttribute(_, _, next) => MayRead(next, k)
    case OmitAttribute(_, ifPresent, ifAbsent) => MayRead(ifPresent, k) || MayRead(ifAbsent, k)
    case _ => false
  }

  ghost predicate MayWrite(p: Program, k: Key)
    decreases p
  {
    match p
    case GetAttribute(_, answers) => exists a :: a in answers && MayWrite(answers[a], k)
    case SetAttribute(key, _, next) => k == key || MayWrite(next, k)
    case OmitAttribute(_, ifPresent, ifAbsent) => MayWrite(ifPresent, k) || MayWrite(ifAbsent, k)
    case _ => false
  }

  /** A record names only keys that the program can touch. */
  lemma {:induction false} RecordWithinProgram(p: Program, st: ObjState, res: FilterResult)
    requires Exec(p, st, res).ending.Finished?
    ensures var r := Exec(p, st, res).ending.result;
            && (forall k :: k in r.inputs && k !in res.inputs ==> MayRead(p, k))
            && (forall k :: k in r.outputs && k !in res.outputs ==> MayWrite(p, k))
    decreases p
  {
    match p
    case GetAttribute(key, answers) =>
      var answer := if key in st.attrs then Some(st.attrs[key]) else None;
      RecordWithinProgram(answers[answer], st, res.(inputs := res.inputs[key := SigOf(st, key)]));
    case SetAttribute(key, value, next) =>
      RecordWithinProgram(next, st.(attrs := st.attrs[key := value]), res.(outputs := res.outputs[key := Murmur(value)]));
    case OmitAttribute(key, ifPresent, ifAbsent) =>
      if key in st.attrs {
        RecordWithinProgram(ifPresent, st.(omit := st.omit + {key}), res.(omits := res.omits + {key}));
      } else {
        RecordWithinProgram(ifAbsent, st, res);
      }
    case _ =>
  }

  ghost predicate Reads(w: World, stage: Stage, k: Key) {
    stage.Runner? && MayRead(w.behaviour(stage.filter.digest), k)
  }

  /** The keys a stage can leave a new value under, its score attribute included. */
  ghost predicate Writes(w: World, id: string, stage: Stage, k: Key) {
    match stage
    case Fetcher =>
      w.fetch(id).Loaded? && k in InitialState(w.serverId, id).attrs + w.fetch(id).values
    case Runner(f) => MayWrite(w.behaviour(f.digest), k) || k == ScoreKey(f.name)
  }

  ghost predicate DisciplinedStack(w: World, stages: seq<Stage>) {
    forall i :: 0 <= i < |stages| && stages[i].Runner? ==>
      Disciplined(w.behaviour(stages[i].filter.digest), {}, {})
  }

  /** No key has two writers, and no filter writes its own score attribute. */
  ghost predicate OneWriterPerKey(w: World, stages: seq<Stage>, id: string) {
    && (forall i, j, k :: 0 <= i < j < |stages| && Writes(w, id, stages[i], k) ==> !Writes(w, id, stages[j], k))
    && (forall i :: 0 <= i < |stages| && stages[i].Runner? ==>
          !MayWrite(w.behaviour(stages[i].filter.digest), ScoreKey(stages[i].filter.name)))
  }

  ghost predicate WritersFirst(w: World, stages: seq<Stage>, id: string) {
    forall i, j, k :: 0 <= i < |stages| && 0 <= j < |stages| ==>
      (Reads(w, stages[i], k) && Writes(w, id, stages[j], k) ==> j < i)
  }

  /** The runners of a stack: the fetcher, then the filters in order. */
  predicate WellFormed(stages: seq<Stage>) {
    && |stages| > 0
    && stages[0].Fetcher?
    && forall i :: 0 < i < |stages| ==> stages[i].Runner?
  }

  /** bind(): the runners of a list of filters. */
  function StagesOf(fs: seq<Filter>): (stages: seq<Stage>)
    ensures |stages| == 1 + |fs| && WellFormed(stages)
    ensures forall i :: 0 <= i < |fs| ==> stages[i + 1] == Runner(fs[i])
  {
    [Fetcher] + seq(|fs|, i requires 0 <= i < |fs| => Runner(fs[i]))
  }

  /** Passing a stage leaves every key it does not write alone. */
  lemma {:induction false} StageFrame(w: World, id: string, stage: Stage, st: ObjState, k: Key)
    requires stage.Runner?
    requires Settle(w, stage, RunStage(w, stage, id, st)).Continue?
    requires !Writes(w, id, stage, k)
    ensures SigOf(Settle(w, stage, RunStage(w, stage, id, st)).state, k) == SigOf(st, k)
  {
    var p := w.behaviour(stage.filter.digest);
    ExecEffect(p, st, EMPTY_RESULT);
    RecordWithinProgram(p, st, EMPTY_RESULT);
  }

  /** A key written only before stage j still shows, at stage i, the value it had after stage j - 1. */
  lemma {:induction false} ReachedFrame(w: World, stages: seq<Stage>, id: string, j: nat, i: nat, k: Key)
    requires WellFormed(stages) && 0 < j <= i <= |stages|
    requires Reached(w, stages, id, i).Some?
    requires forall m :: j <= m < i ==> !Writes(w, id, stages[m], k)
    ensures Reached(w, stages, id, j).Some?
    ensures SigOf(Reached(w, stages, id, i).value, k) == SigOf(Reached(w, stages, id, j).value, k)
    decreases i - j
  {
    if j < i {
      ReachedFrame(w, stages, id, j, i - 1, k);
      StageFrame(w, id, stages[i - 1], Reached(w, stages, id, i - 1).value, k);
    }
  }

  /** An attribute that no stage so far writes is not there. */
  lemma {:induction false} AbsentSoFar(w: World, stages: seq<Stage>, id: string, i: nat, k: Key)
    requires WellFormed(stages) && 0 < i <= |stages| && Reached(w, stages, id, i).Some?
    requires forall j :: 0 <= j < i ==> !Writes(w, id, stages[j], k)
    ensures k !in Reached(w, stages, id, i).value.attrs
  {
    ReachedFrame(w, stages, id, 1, i, k);
    var st := Reached(w, stages, id, 1).value;
    assert !Writes(w, id, stages[0], k);
    assert st.attrs == InitialState(w.serverId, id).attrs + w.fetch(id).values;
  }

  /** What has been omitted stays omitted. */
  lemma {:induction false} ReachedKeepsOmissions(w: World, stages: seq<Stage>, id: string, j: nat, i: nat)
    requires WellFormed(stages) && 0 < j <= i <= |stages|
    requires Reached(w, stages, id, i).Some?
    ensures Reached(w, stages, id, j).Some?
    ensures Reached(w, stages, id, j).value.omit <= Reached(w, stages, id, i).value.omit
    decreases i - j
  {
    if j < i {
      ReachedKeepsOmissions(w, stages, id, j, i - 1);
      ExecEffect(w.behaviour(stages[i - 1].filter.digest), Reached(w, stages, id, i - 1).value, EMPTY_RESULT);
    }
  }

  /** At stage n the full stack either runs the stage that the kept stack runs next, or, from
      any object the kept stack can bring here, it stands still. */
  ghost predicate Stutters(w: World, id: string, full: seq<Stage>, kept: seq<Stage>, pos: seq<nat>, n: nat)
    requires |pos| == |full| + 1 && n < |full| && forall m :: 0 <= m < |pos| ==> pos[m] <= |kept|
  {
    if pos[n + 1] == pos[n] then
      forall st :: Reached(w, kept, id, pos[n]) == Some(st) ==>
        Settle(w, full[n], RunStage(w, full[n], id, st)) == Continue(st)
    else
      pos[n + 1] == pos[n] + 1 && full[n] == kept[pos[n]]
  }

  lemma {:induction false} StutteringOutcome(w: World, id: string, full: seq<Stage>, kept: seq<Stage>, pos: seq<nat>, n: nat, st: ObjState)
    requires |pos| == |full| + 1 && n <= |full| && forall m :: 0 <= m < |pos| ==> pos[m] <= |kept|
    requires pos[|full|] == |kept|
    requires forall m :: 0 <= m < |full| ==> Stutters(w, id, full, kept, pos, m)
    requires Reached(w, kept, id, pos[n]) == Some(st)
    ensures PlainFrom(w, full, id, n, st) == PlainFrom(w, kept, id, pos[n], st)
    decreases |full| - n
  {
    if n < |full| {
      assert Stutters(w, id, full, kept, pos, n);
      var next := Settle(w, full[n], RunStage(w, full[n], id, st));
      if next.Continue? {
        StutteringOutcome(w, id, full, kept, pos, n + 1, next.state);
      }
    }
  }
}
