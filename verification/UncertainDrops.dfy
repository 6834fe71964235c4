/** Without a sure result whose score is rejected, some filters accept the object although they
    agree with everything that is cached. */
module UncertainDrops {
  import opened Wrappers
  import opened Objects
  import opened Filters
  import opened PlainLoop
  import opened Programs
  import opened ResultCache
  import opened CertainDrops

  // ---------------------------------------------------------------- what a truthful cache looks like

  predicate OmitsSeen(r: FilterResult) {
    forall k :: k in r.omits ==> k in r.outputs || (k in r.inputs && r.inputs[k].Some?)
  }

  /** A disciplined filter has read or written whatever it omits. */
  lemma {:induction false} OmitsAreSeen(p: Program, st: ObjState, res: FilterResult)
    requires Disciplined(p, res.inputs.Keys, res.outputs.Keys) && Faithful(st, res) && OmitsSeen(res)
    requires Exec(p, st, res).ending.Finished?
    ensures OmitsSeen(Exec(p, st, res).ending.result)
    decreases p
  {
    match p
    case GetAttribute(key, answers) =>
      var answer := if key in st.attrs then Some(st.attrs[key]) else None;
      var inputs := res.inputs[key := SigOf(st, key)];
      assert inputs.Keys == res.inputs.Keys + {key};
      OmitsAreSeen(answers[answer], st, res.(inputs := inputs));
    case SetAttribute(key, value, next) =>
      assert res.outputs[key := Murmur(value)].Keys == res.outputs.Keys + {key};
      OmitsAreSeen(next, st.(attrs := st.attrs[key := value]), res.(outputs := res.outputs[key := Murmur(value)]));
    case OmitAttribute(key, ifPresent, ifAbsent) =>
      if key in st.attrs {
        OmitsAreSeen(ifPresent, st.(omit := st.omit + {key}), res.(omits := res.omits + {key}));
      } else {
        OmitsAreSeen(ifAbsent, st, res);
      }
    case _ =>
  }

  predicate GoodRecord(stages: seq<Stage>, cache: Cached, i: nat)
    requires i in cache
  {
    && (forall k :: k in cache[i].outputs ==> !IsInitial(k) && ScoreKeyOf(stages, i) != Some(k))
    && OmitsSeen(cache[i])
  }

  /** What the assumptions of the caches say of the cache itself. */
  ghost predicate Consistent(stages: seq<Stage>, cache: Cached) {
    && WellFormed(stages)
    && (forall x :: x in cache ==> x < |stages|)
    && (forall i: nat, j: nat, k :: i < j && Claims(stages, cache, i, k) ==> !Claims(stages, cache, j, k))
    && (forall i :: i in cache && i > 0 ==> GoodRecord(stages, cache, i))
    && (0 in cache ==> cache[0].inputs == map[] && forall k :: IsInitial(k) ==> k in cache[0].outputs)
  }

  lemma {:induction false} RecordIsGood(w: World, stages: seq<Stage>, id: string, cache: Cached, i: nat)
    requires WellFormed(stages) && DisciplinedStack(w, stages) && OneWriterPerKey(w, stages, id)
    requires TruthfulCache(w, id, stages, cache) && w.fetch(id).Loaded? && Loads(w, id) && i in cache && i > 0
    ensures GoodRecord(stages, cache, i)
  {
    var p := w.behaviour(stages[i].filter.digest);
    var st0 :| Exec(p, st0, EMPTY_RESULT).ending == Finished(cache[i]);
    RecordWithinProgram(p, st0, EMPTY_RESULT);
    assert EMPTY_RESULT.inputs.Keys == {} && EMPTY_RESULT.outputs.Keys == {};
    OmitsAreSeen(p, st0, EMPTY_RESULT);
    assert forall k :: IsInitial(k) ==> Writes(w, id, stages[0], k);
    forall k | k in cache[i].outputs ensures !IsInitial(k) && ScoreKeyOf(stages, i) != Some(k) {
      assert MayWrite(p, k) && Writes(w, id, stages[i], k);
    }
  }

  lemma {:induction false} TruthfulIsConsistent(w: World, stages: seq<Stage>, id: string, cache: Cached)
    requires WellFormed(stages) && DisciplinedStack(w, stages) && OneWriterPerKey(w, stages, id)
    requires TruthfulCache(w, id, stages, cache) && w.fetch(id).Loaded? && Loads(w, id)
    ensures Consistent(stages, cache)
  {
    forall i: nat, j: nat, k | i < j && Claims(stages, cache, i, k) ensures !Claims(stages, cache, j, k) {
      ClaimsWrites(w, stages, id, cache, i, k);
      if Claims(stages, cache, j, k) {
        ClaimsWrites(w, stages, id, cache, j, k);
      }
    }
    forall i | i in cache && i > 0 ensures GoodRecord(stages, cache, i) {
      RecordIsGood(w, stages, id, cache, i);
    }
    if 0 in cache {
      assert Truthful(w, id, stages[0], cache[0]);
    }
  }

  // ---------------------------------------------------------------- scores

  /** No record has read this score under k. */
  ghost predicate Unread(text: real -> Value, cache: Cached, k: Key, score: real) {
    forall x :: x in cache && k in cache[x].inputs ==> cache[x].inputs[k] != Some(Murmur(text(score)))
  }

  ghost predicate HasUnread(text: real -> Value, cache: Cached, f: Filter) {
    exists s :: Accepts(f, s) && Unread(text, cache, ScoreKey(f.name), s)
  }

  ghost predicate OneText(text: real -> Value, f: Filter) {
    forall s, t :: Accepts(f, s) && Accepts(f, t) ==> text(s) == text(t)
  }

  /** A filter that accepts scores with different texts accepts one that no record has read. */
  ghost predicate ScoresVary(text: real -> Value, stages: seq<Stage>, cache: Cached)
    requires WellFormed(stages)
  {
    forall i :: 0 < i < |stages| ==> HasUnread(text, cache, stages[i].filter) || OneText(text, stages[i].filter)
  }

  lemma {:induction false} EnoughTexts(text: real -> Value, cache: Cached, k: Key, scores: map<Value, real>) returns (t: Value)
    requires forall t :: t in scores ==> text(scores[t]) == t
    requires |scores.Keys| > |cache.Keys|
    ensures t in scores && Unread(text, cache, k, scores[t])
    decreases |cache.Keys|
  {
    if cache.Keys == {} {
      t :| t in scores.Keys;
    } else {
      var x :| x in cache.Keys;
      var rest := cache - {x};
      assert rest.Keys == cache.Keys - {x};
      var r := cache[x];
      var seen := if k in r.inputs && r.inputs[k].Some? then {r.inputs[k].value.data} else {};
      var others := scores - seen;
      assert others.Keys == scores.Keys - seen;
      t := EnoughTexts(text, rest, k, others);
      assert forall y :: y in cache ==> y == x || y in rest;
    }
  }

  /** That is so if it accepts more texts, each here with a score that has it, than there are cached results. */
  lemma {:induction false} ManyTextsVary(text: real -> Value, cache: Cached, f: Filter, scores: map<Value, real>)
    requires forall t :: t in scores ==> text(scores[t]) == t && Accepts(f, scores[t])
    requires |scores.Keys| > |cache.Keys|
    ensures HasUnread(text, cache, f)
  {
    var t := EnoughTexts(text, cache, ScoreKey(f.name), scores);
  }

  /** An accepted score that no record has read, if there is one. */
  ghost function Pick(text: real -> Value, cache: Cached, f: Filter): real {
    if HasUnread(text, cache, f)
    then var s :| Accepts(f, s) && Unread(text, cache, ScoreKey(f.name), s); s
    else f.minScore
  }

  // ---------------------------------------------------------------- filters made from the cache

  /** `provider` is the first stage that is not sure; it writes `extra`, the attributes that some
      record found missing and nobody is known to write.  `junk` is a value no record has read. */
  datatype Plan = Plan(
    text: real -> Value, stages: seq<Stage>, cache: Cached, junk: Value, provider: nat, extra: set<Key>)

  function Outputs(plan: Plan, i: nat): set<Key> {
    if i in plan.cache then plan.cache[i].outputs.Keys else {}
  }

  function BadKeys(plan: Plan, i: nat): set<Key> {
    Outputs(plan, i) + if i == plan.provider then plan.extra else {}
  }

  function Junk(plan: Plan, keys: set<Key>): map<Key, Value> {
    map k | k in keys :: plan.junk
  }

  function Data(outputs: map<Key, Digest>): map<Key, Value> {
    map k | k in outputs :: outputs[k].data
  }

  /** On anything but the recorded inputs: other outputs, and a score that is accepted. */
  ghost function Bad(plan: Plan, i: nat, f: Filter): Program {
    Puts(Listing(BadKeys(plan, i)), Junk(plan, BadKeys(plan, i)), Report(Pick(plan.text, plan.cache, f)))
  }

  ghost function Good(r: FilterResult): Program {
    Puts(Listing(r.outputs.Keys), Data(r.outputs), Omits(Listing(r.omits), Report(r.score)))
  }

  ghost function ProgramOf(plan: Plan, i: nat, f: Filter): Program {
    if i in plan.cache
    then Check(Listing(plan.cache[i].inputs.Keys), plan.cache[i].inputs, Good(plan.cache[i]), Bad(plan, i, f))
    else Bad(plan, i, f)
  }

  lemma {:induction false} ProgramWrites(plan: Plan, i: nat, f: Filter, k: Key)
    requires MayWrite(ProgramOf(plan, i, f), k)
    ensures k in BadKeys(plan, i)
  {
    PutsWrites(Listing(BadKeys(plan, i)), Junk(plan, BadKeys(plan, i)), Report(Pick(plan.text, plan.cache, f)), k);
    if i in plan.cache {
      var r := plan.cache[i];
      CheckWrites(Listing(r.inputs.Keys), r.inputs, Good(r), Bad(plan, i, f), k);
      PutsWrites(Listing(r.outputs.Keys), Data(r.outputs), Omits(Listing(r.omits), Report(r.score)), k);
      OmitsWritesNothing(Listing(r.omits), r.score, k);
    }
  }

  lemma {:induction false} ProgramDisciplined(plan: Plan, i: nat, f: Filter)
    requires i in plan.cache ==> OmitsSeen(plan.cache[i])
    ensures Disciplined(ProgramOf(plan, i, f), {}, {})
  {
    forall read ensures Disciplined(Bad(plan, i, f), read, {}) {
      PutsDisciplined(Listing(BadKeys(plan, i)), Junk(plan, BadKeys(plan, i)), Report(Pick(plan.text, plan.cache, f)), read, {});
    }
    if i in plan.cache {
      var r := plan.cache[i];
      OmitsDisciplined(Listing(r.omits), r.score, r.inputs.Keys, r.outputs.Keys);
      assert {} + KeysIn(Listing(r.outputs.Keys)) == r.outputs.Keys && {} + KeysIn(Listing(r.inputs.Keys)) == r.inputs.Keys;
      PutsDisciplined(Listing(r.outputs.Keys), Data(r.outputs), Omits(Listing(r.omits), Report(r.score)), r.inputs.Keys, {});
      CheckDisciplined(Listing(r.inputs.Keys), r.inputs, Good(r), Bad(plan, i, f), {});
    }
  }

  /** Writing, omitting and reporting what was recorded. */
  lemma {:induction false} ExecGood(r: FilterResult, st: ObjState, inputs: map<Key, Option<Digest>>)
    ensures var attrs := st.attrs + Data(r.outputs);
            Exec(Good(r), st, FilterResult(inputs, map[], {}, 0.0))
            == Run(Finished(FilterResult(inputs, r.outputs, r.omits * attrs.Keys, r.score)), ObjState(attrs, st.omit + r.omits * attrs.Keys))
  {
    var res, data := FilterResult(inputs, map[], {}, 0.0), Data(r.outputs);
    ExecPuts(Listing(r.outputs.Keys), data, Omits(Listing(r.omits), Report(r.score)), st, res);
    DataIsData(r.outputs);
    ExecTail(r, ObjState(st.attrs + data, st.omit), inputs);
  }

  lemma {:induction false} DataIsData(outputs: map<Key, Digest>)
    ensures Only(Data(outputs), outputs.Keys) == Data(outputs) && map[] + Sigs(Data(outputs)) == outputs
  {
  }

  lemma {:induction false} ExecTail(r: FilterResult, st: ObjState, inputs: map<Key, Option<Digest>>)
    ensures Exec(Omits(Listing(r.omits), Report(r.score)), st, FilterResult(inputs, r.outputs, {}, 0.0))
         == Run(Finished(FilterResult(inputs, r.outputs, r.omits * st.attrs.Keys, r.score)), ObjState(st.attrs, st.omit + r.omits * st.attrs.Keys))
  {
    ExecOmits(Listing(r.omits), Report(r.score), st, FilterResult(inputs, r.outputs, {}, 0.0));
    assert {} + r.omits * st.attrs.Keys == r.omits * st.attrs.Keys;
  }

  /** The run on the recorded inputs. */
  lemma {:induction false} GoodRun(plan: Plan, i: nat, f: Filter, st: ObjState)
    requires i in plan.cache && Agrees(st, plan.cache[i])
    ensures var r := plan.cache[i];
            var attrs := st.attrs + Data(r.outputs);
            Exec(ProgramOf(plan, i, f), st, EMPTY_RESULT)
            == Run(Finished(FilterResult(r.inputs, r.outputs, r.omits * attrs.Keys, r.score)), ObjState(attrs, st.omit + r.omits * attrs.Keys))
  {
    var r := plan.cache[i];
    ExecCheckGood(Listing(r.inputs.Keys), r.inputs, Good(r), Bad(plan, i, f), st, EMPTY_RESULT);
    assert EMPTY_RESULT.inputs + Readings(st, r.inputs.Keys) == r.inputs;
    ExecGood(r, st, r.inputs);
  }

  /** The run on any other inputs, or of a filter of which nothing is cached. */
  lemma {:induction false} BadRun(plan: Plan, i: nat, f: Filter, st: ObjState)
    requires i in plan.cache ==> !Agrees(st, plan.cache[i])
    ensures var run := Exec(ProgramOf(plan, i, f), st, EMPTY_RESULT);
            && run.ending.Finished? && run.ending.result.score == Pick(plan.text, plan.cache, f)
            && run.state == st.(attrs := st.attrs + Junk(plan, BadKeys(plan, i)))
  {
    var res := EMPTY_RESULT;
    if i in plan.cache {
      var r := plan.cache[i];
      var inputs := ExecCheckBad(Listing(r.inputs.Keys), r.inputs, Good(r), Bad(plan, i, f), st, EMPTY_RESULT);
      res := res.(inputs := inputs);
    }
    var junk := Junk(plan, BadKeys(plan, i));
    ExecPuts(Listing(BadKeys(plan, i)), junk, Report(Pick(plan.text, plan.cache, f)), st, res);
    assert Only(junk, BadKeys(plan, i)) == junk;
  }

  /** An object that shows exactly what a record has read. */
  function Shown(r: FilterResult): ObjState {
    ObjState(map k | k in r.inputs && r.inputs[k].Some? :: r.inputs[k].value.data, {})
  }

  lemma {:induction false} ProgramTruthful(plan: Plan, i: nat, f: Filter)
    requires i in plan.cache && OmitsSeen(plan.cache[i])
    ensures Exec(ProgramOf(plan, i, f), Shown(plan.cache[i]), EMPTY_RESULT).ending == Finished(plan.cache[i])
  {
    var r := plan.cache[i];
    var st := Shown(r);
    GoodRun(plan, i, f, st);
    assert r.omits * (st.attrs + Data(r.outputs)).Keys == r.omits;
  }

  // ---------------------------------------------------------------- the world of those filters

  ghost predicate DistinctDigests(stages: seq<Stage>)
    requires WellFormed(stages)
  {
    forall i, j :: 0 < i < j < |stages| ==> stages[i].filter.digest != stages[j].filter.digest
  }

  ghost predicate HasDigest(stages: seq<Stage>, i: nat, d: string) {
    0 < i < |stages| && stages[i].Runner? && stages[i].filter.digest == d
  }

  ghost function BehaviourOf(plan: Plan, d: string): Program {
    if exists i: nat :: HasDigest(plan.stages, i, d)
    then var i: nat :| HasDigest(plan.stages, i, d); ProgramOf(plan, i, plan.stages[i].filter)
    else Crash
  }

  function FetchedKeys(plan: Plan): set<Key> {
    {ATTR_OBJ_ID, ATTR_DEVICE_NAME, ATTR_DATA, ATTR_DISPLAY_NAME} + if plan.provider == 0 then plan.extra else {}
  }

  /** As in w, with these filters; and if nothing is cached of the retriever, it answers junk. */
  ghost function PlanWorld(plan: Plan, w: World): World {
    World(w.serverId, id => if 0 in plan.cache then w.fetch(id) else Loaded(Junk(plan, FetchedKeys(plan))),
          d => BehaviourOf(plan, d), plan.text)
  }

  lemma {:induction false} BehaviourAt(plan: Plan, i: nat)
    requires WellFormed(plan.stages) && DistinctDigests(plan.stages) && 0 < i < |plan.stages|
    ensures BehaviourOf(plan, plan.stages[i].filter.digest) == ProgramOf(plan, i, plan.stages[i].filter)
  {
    assert HasDigest(plan.stages, i, plan.stages[i].filter.digest);
  }

  /** Runner x found k missing, and nobody is known to write it. */
  ghost predicate FoundMissing(plan: Plan, x: nat, k: Key)
    requires x in plan.cache
  {
    && k in plan.cache[x].inputs && plan.cache[x].inputs[k].None?
    && !IsInitial(k) && !Claimed(plan.stages, plan.cache, k)
  }

  /** The plan fits its stages and its cache. */
  ghost predicate Fits(plan: Plan) {
    && Consistent(plan.stages, plan.cache) && DistinctDigests(plan.stages)
    && ScoresVary(plan.text, plan.stages, plan.cache)
    && (forall y: nat :: y < plan.provider ==> Sure(plan.text, plan.stages, plan.cache, y))
    && plan.provider <= |plan.stages| && !Sure(plan.text, plan.stages, plan.cache, plan.provider)
    && (forall k :: k in plan.extra ==> !IsInitial(k) && !Claimed(plan.stages, plan.cache, k))
    && (forall x, k :: x in plan.cache && FoundMissing(plan, x, k) ==> k in plan.extra)
    && (forall x, k :: x in plan.cache && k in plan.cache[x].inputs ==> plan.cache[x].inputs[k] != Some(Murmur(plan.junk)))
  }

  /** The retriever is sure exactly if it is cached. */
  lemma {:induction false} RetrieverSure(plan: Plan)
    requires Fits(plan)
    ensures Sure(plan.text, plan.stages, plan.cache, 0) <==> 0 in plan.cache
    ensures plan.provider == 0 <==> 0 !in plan.cache
  {
  }

  // ---------------------------------------------------------------- it meets the assumptions

  lemma {:induction false} PlanDisciplined(plan: Plan, w: World)
    requires Fits(plan)
    ensures DisciplinedStack(PlanWorld(plan, w), plan.stages)
  {
    forall i | 0 <= i < |plan.stages| && plan.stages[i].Runner?
      ensures Disciplined(PlanWorld(plan, w).behaviour(plan.stages[i].filter.digest), {}, {})
    {
      BehaviourAt(plan, i);
      assert i in plan.cache ==> GoodRecord(plan.stages, plan.cache, i);
      ProgramDisciplined(plan, i, plan.stages[i].filter);
    }
  }

  lemma {:induction false} PlanTruthful(plan: Plan, w: World, id: string)
    requires Fits(plan) && TruthfulCache(w, id, plan.stages, plan.cache)
    ensures TruthfulCache(PlanWorld(plan, w), id, plan.stages, plan.cache)
  {
    var v := PlanWorld(plan, w);
    forall i | i in plan.cache ensures Truthful(v, id, plan.stages[i], plan.cache[i]) {
      if i == 0 {
        assert Truthful(w, id, plan.stages[0], plan.cache[0]);
        FetchesAlike(plan, w, id);
      } else {
        RunnerTruthful(plan, w, id, i);
      }
    }
  }

  lemma {:induction false} FetchesAlike(plan: Plan, w: World, id: string)
    requires 0 in plan.cache
    ensures RunStage(PlanWorld(plan, w), Fetcher, id, InitialState(w.serverId, id)) == RunStage(w, Fetcher, id, InitialState(w.serverId, id))
  {
  }

  lemma {:induction false} RunnerTruthful(plan: Plan, w: World, id: string, i: nat)
    requires Fits(plan) && i in plan.cache && i > 0
    ensures Truthful(PlanWorld(plan, w), id, plan.stages[i], plan.cache[i])
  {
    BehaviourAt(plan, i);
    assert GoodRecord(plan.stages, plan.cache, i);
    ProgramTruthful(plan, i, plan.stages[i].filter);
    assert PlanWorld(plan, w).behaviour(plan.stages[i].filter.digest) == ProgramOf(plan, i, plan.stages[i].filter);
  }

  /** Who writes what there. */
  lemma {:induction false} PlanWrites(plan: Plan, w: World, id: string, i: nat, k: Key)
    requires Fits(plan) && TruthfulCache(w, id, plan.stages, plan.cache) && i < |plan.stages|
    requires Writes(PlanWorld(plan, w), id, plan.stages[i], k)
    ensures Claims(plan.stages, plan.cache, i, k) || (i == plan.provider && k in plan.extra) || (i == 0 && IsInitial(k))
  {
    if i == 0 {
      if 0 in plan.cache {
        assert Truthful(w, id, plan.stages[0], plan.cache[0]);
      }
    } else {
      BehaviourAt(plan, i);
      if MayWrite(ProgramOf(plan, i, plan.stages[i].filter), k) {
        ProgramWrites(plan, i, plan.stages[i].filter, k);
      }
    }
  }

  lemma {:induction false} ScoreKeysAreNotInitial(name: string)
    ensures !IsInitial(ScoreKey(name))
  {
    assert ScoreKey(name)[1] == 'f' && ATTR_OBJ_ID[1] == 'O' && ATTR_DEVICE_NAME[1] == 'e' && ATTR_DISPLAY_NAME[1] == 'i';
  }

  /** Initial attributes have no writer but the retriever. */
  lemma {:induction false} InitialUnclaimed(plan: Plan, j: nat, k: Key)
    requires Fits(plan) && j > 0 && Claims(plan.stages, plan.cache, j, k)
    ensures !IsInitial(k)
  {
    if j in plan.cache && k in plan.cache[j].outputs {
      assert GoodRecord(plan.stages, plan.cache, j);
    } else {
      ScoreKeysAreNotInitial(plan.stages[j].filter.name);
    }
  }

  lemma {:induction false} PlanOneWriter(plan: Plan, w: World, id: string)
    requires Fits(plan) && TruthfulCache(w, id, plan.stages, plan.cache)
    ensures OneWriterPerKey(PlanWorld(plan, w), plan.stages, id)
  {
    var v := PlanWorld(plan, w);
    forall i, j, k | 0 <= i < j < |plan.stages| && Writes(v, id, plan.stages[i], k) ensures !Writes(v, id, plan.stages[j], k) {
      PlanWrites(plan, w, id, i, k);
      if Writes(v, id, plan.stages[j], k) {
        PlanWrites(plan, w, id, j, k);
        if Claims(plan.stages, plan.cache, j, k) {
          InitialUnclaimed(plan, j, k);
        }
      }
    }
    forall i | 0 <= i < |plan.stages| && plan.stages[i].Runner?
      ensures !MayWrite(v.behaviour(plan.stages[i].filter.digest), ScoreKey(plan.stages[i].filter.name))
    {
      OwnScoreUnwritten(plan, i);
      BehaviourAt(plan, i);
    }
  }

  lemma {:induction false} OwnScoreUnwritten(plan: Plan, i: nat)
    requires Fits(plan) && 0 < i < |plan.stages|
    ensures !MayWrite(ProgramOf(plan, i, plan.stages[i].filter), ScoreKey(plan.stages[i].filter.name))
  {
    var k := ScoreKey(plan.stages[i].filter.name);
    assert Claims(plan.stages, plan.cache, i, k);
    assert i in plan.cache ==> GoodRecord(plan.stages, plan.cache, i);
    if MayWrite(ProgramOf(plan, i, plan.stages[i].filter), k) {
      ProgramWrites(plan, i, plan.stages[i].filter, k);
    }
  }

  // ---------------------------------------------------------------- and it accepts the object

  /** Every filter accepts some score, and no sure result is rejected. */
  ghost predicate Acceptable(text: real -> Value, stages: seq<Stage>, cache: Cached)
    requires WellFormed(stages)
  {
    && (forall i :: 0 < i < |stages| ==> stages[i].filter.minScore <= stages[i].filter.maxScore)
    && (forall x :: x in cache && Sure(text, stages, cache, x) ==> Threshold(stages[x], cache[x]))
  }

  /** What stage y has left under k, if it writes k. */
  ghost predicate Left(plan: Plan, st: ObjState, y: nat, k: Key) {
    SigOf(st, k) == Some(LeftSig(plan, y, k))
  }

  ghost function LeftSig(plan: Plan, y: nat, k: Key): Digest {
    if ScoreKeyOf(plan.stages, y) == Some(k) then Murmur(FinalText(plan, y))
    else if k in Outputs(plan, y) && Sure(plan.text, plan.stages, plan.cache, y) then plan.cache[y].outputs[k]
    else Murmur(plan.junk)
  }

  ghost function FinalScore(plan: Plan, y: nat): real
    requires y < |plan.stages| && plan.stages[y].Runner?
  {
    if Sure(plan.text, plan.stages, plan.cache, y) then plan.cache[y].score
    else Pick(plan.text, plan.cache, plan.stages[y].filter)
  }

  ghost function FinalText(plan: Plan, y: nat): Value
    requires y < |plan.stages| && plan.stages[y].Runner?
  {
    plan.text(FinalScore(plan, y))
  }

  ghost predicate Accounted(plan: Plan, k: Key, i: nat) {
    || IsInitial(k)
    || (exists y: nat :: y < i && Claims(plan.stages, plan.cache, y, k))
    || (plan.provider < i && k in plan.extra)
  }

  /** The object as it gets to stage i: sure runners have left their outputs, all else is junk. */
  ghost predicate AsPlanned(plan: Plan, st: ObjState, i: nat) {
    && (forall y: nat, k :: y < i && Claims(plan.stages, plan.cache, y, k) ==> Left(plan, st, y, k))
    && (0 !in plan.cache ==> forall k :: IsInitial(k) ==> SigOf(st, k) == Some(Murmur(plan.junk)))
    && (plan.provider < i ==> forall k :: k in plan.extra ==> SigOf(st, k) == Some(Murmur(plan.junk)))
    && (forall k :: SigOf(st, k).Some? ==> Accounted(plan, k, i))
  }

  lemma {:induction false} NotAccounted(plan: Plan, k: Key, i: nat)
    requires Fits(plan) && Unwritten(plan.stages, plan.cache, k, i)
    requires Claimed(plan.stages, plan.cache, k) || forall y: nat :: y < i ==> Sure(plan.text, plan.stages, plan.cache, y)
    ensures !Accounted(plan, k, i)
  {
    assert !Sure(plan.text, plan.stages, plan.cache, plan.provider);
  }

  lemma {:induction false} FinalScoreAccepted(plan: Plan, y: nat)
    requires Fits(plan) && 0 < y < |plan.stages| && Acceptable(plan.text, plan.stages, plan.cache)
    ensures Accepts(plan.stages[y].filter, FinalScore(plan, y))
  {
  }

  /** A sure runner finds what it has read before. */
  lemma {:induction false} SureAgrees(plan: Plan, st: ObjState, i: nat)
    requires Fits(plan) && AsPlanned(plan, st, i) && Sure(plan.text, plan.stages, plan.cache, i)
    requires Acceptable(plan.text, plan.stages, plan.cache)
    ensures Agrees(st, plan.cache[i])
  {
    forall k | k in plan.cache[i].inputs ensures plan.cache[i].inputs[k] == SigOf(st, k) {
      match plan.cache[i].inputs[k]
      case Some(sig) =>
        SureValue(plan, st, i, k, sig);
      case None =>
        assert Unwritten(plan.stages, plan.cache, k, i);
        NotAccounted(plan, k, i);
    }
  }

  lemma {:induction false} SureValue(plan: Plan, st: ObjState, i: nat, k: Key, sig: Digest)
    requires Fits(plan) && AsPlanned(plan, st, i) && Acceptable(plan.text, plan.stages, plan.cache)
    requires i in plan.cache && k in plan.cache[i].inputs && plan.cache[i].inputs[k] == Some(sig) && SureInputAt(plan, i, k)
    ensures SigOf(st, k) == Some(sig)
  {
    var text, stages, cache := plan.text, plan.stages, plan.cache;
    if y: nat :| y < i && OnlyScore(text, stages, y, k, sig) {
      assert Claims(stages, cache, y, k) && Left(plan, st, y, k);
      FinalScoreAccepted(plan, y);
    } else {
      var y: nat :| y < i && Leaves(text, stages, cache, y, k, sig) && Sure(text, stages, cache, y);
      assert Claims(stages, cache, y, k) && Left(plan, st, y, k);
      assert y > 0 ==> GoodRecord(stages, cache, y);
    }
  }

  /** Another cached runner does not. */
  lemma {:induction false} UnsureDisagrees(plan: Plan, st: ObjState, i: nat)
    requires Fits(plan) && AsPlanned(plan, st, i) && 0 < i < |plan.stages|
    requires i in plan.cache && !Sure(plan.text, plan.stages, plan.cache, i)
    ensures !Agrees(st, plan.cache[i])
  {
    if forall k :: k in plan.cache[i].inputs ==> SureInputAt(plan, i, k) {
      assert Sure(plan.text, plan.stages, plan.cache, i);
    } else {
      var k :| k in plan.cache[i].inputs && !SureInputAt(plan, i, k);
      match plan.cache[i].inputs[k] {
        case Some(sig) => NoSureProducer(plan, st, i, k, sig);
        case None => NotSurelyMissing(plan, st, i, k);
      }
    }
  }

  ghost predicate SureInputAt(plan: Plan, i: nat, k: Key)
    requires i in plan.cache && k in plan.cache[i].inputs
  {
    match plan.cache[i].inputs[k]
    case Some(sig) =>
      || (exists y: nat :: y < i && Leaves(plan.text, plan.stages, plan.cache, y, k, sig) && Sure(plan.text, plan.stages, plan.cache, y))
      || (exists y: nat :: y < i && OnlyScore(plan.text, plan.stages, y, k, sig))
    case None =>
      && Unwritten(plan.stages, plan.cache, k, i)
      && (Claimed(plan.stages, plan.cache, k) || forall y: nat :: y < i ==> Sure(plan.text, plan.stages, plan.cache, y))
  }

  lemma {:induction false} NoSureProducer(plan: Plan, st: ObjState, i: nat, k: Key, sig: Digest)
    requires Fits(plan) && AsPlanned(plan, st, i) && 0 < i && i in plan.cache && k in plan.cache[i].inputs
    requires plan.cache[i].inputs[k] == Some(sig) && !SureInputAt(plan, i, k)
    ensures SigOf(st, k) != Some(sig)
  {
    assert plan.cache[i].inputs[k] != Some(Murmur(plan.junk));
    forall y: nat | y < i && Claims(plan.stages, plan.cache, y, k) ensures SigOf(st, k) != Some(sig) {
      assert Left(plan, st, y, k);
      NotLeft(plan, i, y, k, sig);
    }
    if IsInitial(k) {
      RetrieverClaimsInitial(plan, k);
    }
    assert SigOf(st, k).Some? ==> Accounted(plan, k, i);
  }

  lemma {:induction false} NotLeft(plan: Plan, i: nat, y: nat, k: Key, sig: Digest)
    requires Fits(plan) && i in plan.cache && k in plan.cache[i].inputs
    requires plan.cache[i].inputs[k] == Some(sig) && !SureInputAt(plan, i, k)
    requires y < i && Claims(plan.stages, plan.cache, y, k)
    ensures LeftSig(plan, y, k) != sig
  {
    var text, stages, cache := plan.text, plan.stages, plan.cache;
    assert Leaves(text, stages, cache, y, k, sig) ==> !Sure(text, stages, cache, y);
    if ScoreKeyOf(stages, y) == Some(k) && !Sure(text, stages, cache, y) {
      NotPicked(plan, i, y, k, sig);
    }
  }

  /** The score of a filter that is not sure is not the one that was read. */
  lemma {:induction false} NotPicked(plan: Plan, i: nat, y: nat, k: Key, sig: Digest)
    requires Fits(plan) && i in plan.cache && k in plan.cache[i].inputs && plan.cache[i].inputs[k] == Some(sig)
    requires y < i && ScoreKeyOf(plan.stages, y) == Some(k) && !OnlyScore(plan.text, plan.stages, y, k, sig)
    ensures Murmur(plan.text(Pick(plan.text, plan.cache, plan.stages[y].filter))) != sig
  {
    var f := plan.stages[y].filter;
    if HasUnread(plan.text, plan.cache, f) {
      assert Unread(plan.text, plan.cache, k, Pick(plan.text, plan.cache, f));
    } else {
      assert OneText(plan.text, f);
      var s :| Accepts(f, s) && sig != Murmur(plan.text(s));
      assert Accepts(f, f.minScore);
    }
  }

  lemma {:induction false} RetrieverClaimsInitial(plan: Plan, k: Key)
    requires Fits(plan) && IsInitial(k)
    ensures 0 in plan.cache ==> Claims(plan.stages, plan.cache, 0, k)
  {
  }

  lemma {:induction false} NotSurelyMissing(plan: Plan, st: ObjState, i: nat, k: Key)
    requires Fits(plan) && AsPlanned(plan, st, i) && 0 < i && i in plan.cache && k in plan.cache[i].inputs
    requires plan.cache[i].inputs[k] == None && !SureInputAt(plan, i, k)
    ensures SigOf(st, k).Some?
  {
    if IsInitial(k) {
      RetrieverClaimsInitial(plan, k);
      assert 0 in plan.cache ==> Left(plan, st, 0, k);
    } else if y: nat :| y < i && Claims(plan.stages, plan.cache, y, k) {
      assert Left(plan, st, y, k);
    } else {
      assert Unwritten(plan.stages, plan.cache, k, i);
      assert FoundMissing(plan, i, k);
    }
  }

  /** What stage i adds to the object, apart from its score. */
  function Added(plan: Plan, i: nat, sure: bool): map<Key, Value> {
    if sure && i in plan.cache then Data(plan.cache[i].outputs) else Junk(plan, BadKeys(plan, i))
  }

  lemma {:induction false} PlannedStep(plan: Plan, st: ObjState, st': ObjState, i: nat)
    requires Fits(plan) && AsPlanned(plan, st, i) && 0 < i < |plan.stages|
    requires var k := ScoreKey(plan.stages[i].filter.name);
             st'.attrs == (st.attrs + Added(plan, i, Sure(plan.text, plan.stages, plan.cache, i)))[k := FinalText(plan, i)]
    ensures AsPlanned(plan, st', i + 1)
  {
    forall y: nat, k | y < i + 1 && Claims(plan.stages, plan.cache, y, k) ensures Left(plan, st', y, k) {
      if y < i {
        LeftStays(plan, st, st', i, y, k);
      } else {
        LeftNow(plan, st, st', i, k);
      }
    }
    forall k | SigOf(st', k).Some? ensures Accounted(plan, k, i + 1) {
      StepAccounts(plan, st, st', i, k);
    }
    forall k | IsInitial(k) && 0 !in plan.cache ensures SigOf(st', k) == Some(Murmur(plan.junk)) {
      InitialStays(plan, i, k);
    }
    if plan.provider < i + 1 {
      forall k | k in plan.extra ensures SigOf(st', k) == Some(Murmur(plan.junk)) {
        ExtraStays(plan, st, st', i, k);
      }
    }
  }

  lemma {:induction false} LeftStays(plan: Plan, st: ObjState, st': ObjState, i: nat, y: nat, k: Key)
    requires Fits(plan) && AsPlanned(plan, st, i) && y < i < |plan.stages| && Claims(plan.stages, plan.cache, y, k)
    requires st'.attrs == (st.attrs + Added(plan, i, Sure(plan.text, plan.stages, plan.cache, i)))[ScoreKey(plan.stages[i].filter.name) := FinalText(plan, i)]
    ensures Left(plan, st', y, k)
  {
    assert !Claims(plan.stages, plan.cache, i, k) && Left(plan, st, y, k);
  }

  lemma {:induction false} LeftNow(plan: Plan, st: ObjState, st': ObjState, i: nat, k: Key)
    requires Fits(plan) && 0 < i < |plan.stages| && Claims(plan.stages, plan.cache, i, k)
    requires st'.attrs == (st.attrs + Added(plan, i, Sure(plan.text, plan.stages, plan.cache, i)))[ScoreKey(plan.stages[i].filter.name) := FinalText(plan, i)]
    ensures Left(plan, st', i, k)
  {
    assert i in plan.cache ==> GoodRecord(plan.stages, plan.cache, i);
  }

  lemma {:induction false} StepAccounts(plan: Plan, st: ObjState, st': ObjState, i: nat, k: Key)
    requires Fits(plan) && AsPlanned(plan, st, i) && 0 < i < |plan.stages|
    requires st'.attrs == (st.attrs + Added(plan, i, Sure(plan.text, plan.stages, plan.cache, i)))[ScoreKey(plan.stages[i].filter.name) := FinalText(plan, i)]
    requires SigOf(st', k).Some?
    ensures Accounted(plan, k, i + 1)
  {
    if SigOf(st, k).Some? {
      assert Accounted(plan, k, i);
    } else if k == ScoreKey(plan.stages[i].filter.name) || k in Outputs(plan, i) {
      assert Claims(plan.stages, plan.cache, i, k);
    }
  }

  lemma {:induction false} InitialStays(plan: Plan, i: nat, k: Key)
    requires Fits(plan) && 0 < i < |plan.stages| && IsInitial(k)
    ensures k !in BadKeys(plan, i) && k != ScoreKey(plan.stages[i].filter.name)
    ensures k !in Added(plan, i, Sure(plan.text, plan.stages, plan.cache, i))
  {
    ScoreKeysAreNotInitial(plan.stages[i].filter.name);
    assert i in plan.cache ==> GoodRecord(plan.stages, plan.cache, i);
  }

  lemma {:induction false} ExtraStays(plan: Plan, st: ObjState, st': ObjState, i: nat, k: Key)
    requires Fits(plan) && AsPlanned(plan, st, i) && 0 < i < |plan.stages| && plan.provider <= i && k in plan.extra
    requires st'.attrs == (st.attrs + Added(plan, i, Sure(plan.text, plan.stages, plan.cache, i)))[ScoreKey(plan.stages[i].filter.name) := FinalText(plan, i)]
    ensures SigOf(st', k) == Some(Murmur(plan.junk))
  {
    assert !Claims(plan.stages, plan.cache, i, k);
  }

  /** Filter i on the planned object: what it adds, and that its score is accepted. */
  lemma {:induction false} PlannedFilter(plan: Plan, st: ObjState, i: nat) returns (run: Run)
    requires Fits(plan) && AsPlanned(plan, st, i) && 0 < i < |plan.stages| && Acceptable(plan.text, plan.stages, plan.cache)
    ensures run == Exec(ProgramOf(plan, i, plan.stages[i].filter), st, EMPTY_RESULT)
    ensures run.ending.Finished? && run.ending.result.score == FinalScore(plan, i) && Threshold(plan.stages[i], run.ending.result)
    ensures run.state.attrs == st.attrs + Added(plan, i, Sure(plan.text, plan.stages, plan.cache, i))
  {
    var f := plan.stages[i].filter;
    FinalScoreAccepted(plan, i);
    run := Exec(ProgramOf(plan, i, f), st, EMPTY_RESULT);
    if Sure(plan.text, plan.stages, plan.cache, i) {
      SureAgrees(plan, st, i);
      GoodRun(plan, i, f, st);
    } else {
      if i in plan.cache {
        UnsureDisagrees(plan, st, i);
      }
      BadRun(plan, i, f, st);
    }
  }

  lemma {:induction false} PlannedStage(plan: Plan, w: World, id: string, st: ObjState, i: nat) returns (st': ObjState)
    requires Fits(plan) && AsPlanned(plan, st, i) && 0 < i < |plan.stages| && Acceptable(plan.text, plan.stages, plan.cache)
    ensures var v := PlanWorld(plan, w);
            Settle(v, plan.stages[i], RunStage(v, plan.stages[i], id, st)) == Continue(st') && AsPlanned(plan, st', i + 1)
  {
    BehaviourAt(plan, i);
    var run := PlannedFilter(plan, st, i);
    st' := run.state.(attrs := run.state.attrs[ScoreKey(plan.stages[i].filter.name) := FinalText(plan, i)]);
    PlannedStep(plan, st, st', i);
  }

  /** What the retriever gives the object. */
  lemma {:induction false} PlannedFetch(plan: Plan, w: World, id: string) returns (st: ObjState)
    requires Fits(plan) && (0 in plan.cache ==> Truthful(w, id, plan.stages[0], plan.cache[0]))
    ensures Reached(PlanWorld(plan, w), plan.stages, id, 1) == Some(st)
    ensures 0 in plan.cache ==> plan.cache[0].outputs == map k | k in st.attrs :: Murmur(st.attrs[k])
    ensures 0 !in plan.cache ==> st.attrs == Junk(plan, FetchedKeys(plan))
  {
    var v := PlanWorld(plan, w);
    var start := InitialState(v.serverId, id);
    assert Reached(v, plan.stages, id, 0) == Some(start);
    var run := RunStage(v, plan.stages[0], id, start);
    assert run.ending.Finished?;
    st := run.state;
    if 0 !in plan.cache {
      assert st.attrs == Junk(plan, FetchedKeys(plan));
    }
  }

  lemma {:induction false} PlannedStart(plan: Plan, w: World, id: string)
    requires Fits(plan) && (0 in plan.cache ==> Truthful(w, id, plan.stages[0], plan.cache[0]))
    ensures var st := Reached(PlanWorld(plan, w), plan.stages, id, 1);
            st.Some? && AsPlanned(plan, st.value, 1)
  {
    RetrieverSure(plan);
    var st := PlannedFetch(plan, w, id);
    FetchedAsPlanned(plan, st);
  }

  lemma {:induction false} FetchedAsPlanned(plan: Plan, st: ObjState)
    requires Fits(plan) && (plan.provider == 0 <==> 0 !in plan.cache) && (0 in plan.cache ==> Sure(plan.text, plan.stages, plan.cache, 0))
    requires 0 in plan.cache ==> plan.cache[0].outputs == map k | k in st.attrs :: Murmur(st.attrs[k])
    requires 0 !in plan.cache ==> st.attrs == Junk(plan, FetchedKeys(plan))
    ensures AsPlanned(plan, st, 1)
  {
    assert forall k :: Claims(plan.stages, plan.cache, 0, k) <==> 0 in plan.cache && k in plan.cache[0].outputs;
    forall k | SigOf(st, k).Some? ensures Accounted(plan, k, 1) {
      if 0 in plan.cache {
        assert k in plan.cache[0].outputs && Claims(plan.stages, plan.cache, 0, k);
      }
    }
  }

  lemma {:induction false} PlannedRun(plan: Plan, w: World, id: string, i: nat)
    requires Fits(plan) && Acceptable(plan.text, plan.stages, plan.cache) && 0 < i <= |plan.stages|
    requires 0 in plan.cache ==> Truthful(w, id, plan.stages[0], plan.cache[0])
    ensures var st := Reached(PlanWorld(plan, w), plan.stages, id, i);
            st.Some? && AsPlanned(plan, st.value, i)
  {
    if i == 1 {
      PlannedStart(plan, w, id);
    } else {
      PlannedRun(plan, w, id, i - 1);
      var st' := PlannedStage(plan, w, id, Reached(PlanWorld(plan, w), plan.stages, id, i - 1).value, i - 1);
    }
  }

  // ---------------------------------------------------------------- the plan

  lemma {:induction false} FirstUnsure(text: real -> Value, stages: seq<Stage>, cache: Cached, n: nat) returns (p: nat)
    requires forall y: nat :: y < n ==> Sure(text, stages, cache, y)
    requires n <= |stages|
    ensures p <= |stages| && !Sure(text, stages, cache, p) && forall y: nat :: y < p ==> Sure(text, stages, cache, y)
    decreases |stages| - n
  {
    p := n;
    if Sure(text, stages, cache, n) {
      p := FirstUnsure(text, stages, cache, n + 1);
    }
  }

  lemma {:induction false} FreshValue(s: set<Value>) returns (v: Value)
    ensures forall u :: u in s ==> |u| < |v|
    decreases s
  {
    v := "\0";
    if s != {} {
      var u :| u in s;
      v := FreshValue(s - {u});
      v := v + u + "\0";
      assert forall t :: t in s ==> t == u || t in s - {u};
    }
  }

  lemma {:induction false} MakePlan(text: real -> Value, stages: seq<Stage>, cache: Cached) returns (plan: Plan)
    requires Consistent(stages, cache) && DistinctDigests(stages) && ScoresVary(text, stages, cache)
    ensures plan.text == text && plan.stages == stages && plan.cache == cache && Fits(plan)
  {
    var provider := FirstUnsure(text, stages, cache, 0);
    var read := set x, k | x in cache && k in cache[x].inputs && cache[x].inputs[k].Some? :: cache[x].inputs[k].value.data;
    var junk := FreshValue(read);
    var extra := set x, k | x in cache && k in cache[x].inputs && cache[x].inputs[k].None?
      && !IsInitial(k) && !Claimed(stages, cache, k) :: k;
    plan := Plan(text, stages, cache, junk, provider, extra);
    forall x, k | x in cache && k in cache[x].inputs ensures cache[x].inputs[k] != Some(Murmur(junk)) {
      if cache[x].inputs[k].Some? {
        assert cache[x].inputs[k].value.data in read;
      }
    }
  }

  // ---------------------------------------------------------------- exactly

  /** Another world as far as the retriever and the filters go; the server is the same. */
  ghost predicate SameServer(v: World, w: World) {
    v.serverId == w.serverId && v.scoreText == w.scoreText
  }

  ghost predicate Possible(v: World, stages: seq<Stage>, id: string, cache: Cached)
    requires WellFormed(stages)
  {
    && DisciplinedStack(v, stages) && OneWriterPerKey(v, stages, id) && Loads(v, id)
    && TruthfulCache(v, id, stages, cache)
  }

  /** If no sure result is rejected, other filters, which agree with all that is cached, accept. */
  lemma {:induction false} UnsureIsAccepted(w: World, stages: seq<Stage>, id: string, cache: Cached) returns (v: World)
    requires WellFormed(stages) && Possible(w, stages, id, cache) && w.fetch(id).Loaded?
    requires DistinctDigests(stages) && ScoresVary(w.scoreText, stages, cache) && Acceptable(w.scoreText, stages, cache)
    ensures SameServer(v, w) && Possible(v, stages, id, cache)
    ensures Plain(v, stages, id).verdict == Accept
  {
    TruthfulIsConsistent(w, stages, id, cache);
    var plan := MakePlan(w.scoreText, stages, cache);
    v := PlanWorld(plan, w);
    PlanDisciplined(plan, w);
    PlanOneWriter(plan, w, id);
    PlanTruthful(plan, w, id);
    PlannedRun(plan, w, id, |stages|);
    PlainVsReached(v, stages, id, |stages|);
  }

  /** A filter that accepts no score accepts no object. */
  lemma {:induction false} NoScoreNoObject(w: World, stages: seq<Stage>, id: string, i: nat)
    requires WellFormed(stages) && 0 < i < |stages| && stages[i].filter.minScore > stages[i].filter.maxScore
    ensures Plain(w, stages, id).verdict != Accept
  {
    PlainVsReached(w, stages, id, |stages|);
    if Reached(w, stages, id, |stages|).Some? {
      ReachedPrefix(w, stages, id, i + 1, |stages|);
    }
  }

  /** A cached drop is right, whatever the retriever answers and the filters compute in agreement with
      what is cached, and whatever the order of writers and readers, if and only if some sure result
      has a rejected score or some filter accepts no score at all. */
  lemma {:induction false} DropCertainExactly(w: World, stages: seq<Stage>, id: string, cache: Cached)
    requires WellFormed(stages) && Possible(w, stages, id, cache) && w.fetch(id).Loaded?
    requires DistinctDigests(stages) && ScoresVary(w.scoreText, stages, cache)
    ensures !Acceptable(w.scoreText, stages, cache) <==>
            forall v :: SameServer(v, w) && Possible(v, stages, id, cache) ==> Plain(v, stages, id).verdict != Accept
  {
    if Acceptable(w.scoreText, stages, cache) {
      var v := UnsureIsAccepted(w, stages, id, cache);
    } else {
      forall v | SameServer(v, w) && Possible(v, stages, id, cache) ensures Plain(v, stages, id).verdict != Accept {
        NotAcceptable(v, stages, id, cache);
      }
    }
  }

  lemma {:induction false} NotAcceptable(w: World, stages: seq<Stage>, id: string, cache: Cached)
    requires WellFormed(stages) && Possible(w, stages, id, cache) && !Acceptable(w.scoreText, stages, cache)
    ensures Plain(w, stages, id).verdict != Accept
  {
    if i: nat :| 0 < i < |stages| && stages[i].filter.minScore > stages[i].filter.maxScore {
      NoScoreNoObject(w, stages, id, i);
    } else {
      var x :| x in cache && Sure(w.scoreText, stages, cache, x) && !Threshold(stages[x], cache[x]);
      SureDropSound(w, stages, id, cache, x);
    }
  }
}
