/** Evaluating one object with both caches, against a Redis that other workers share. */
module Evaluation {
  import opened Wrappers
  import opened Objects
  import opened Filters
  import opened PlainLoop
  import opened ResultCache

  /** The shared database: result entries and attribute entries. */
  class Redis {
    var results: map<(CacheId, string), FilterResult>
    var attributes: map<Digest, Value>

    constructor ()
      ensures results == map[] && attributes == map[]
    {
      results, attributes := map[], map[];
    }

    ghost predicate Truthful(w: World)
      reads this
    {
      && (forall e :: e in results ==> TruthfulEntry(w, e.0, e.1, results[e]))
      && (forall s :: s in attributes ==> Murmur(attributes[s]) == s)
    }

    /** Anything that other workers, other searches and Redis' own eviction may do between
        two requests of one worker: callers learn only that the database is still truthful,
        which is what every worker guarantees for its own updates. */
    method Interfere(w: World)
      requires Truthful(w)
      modifies this
      ensures Truthful(w)
    {
    }
  }

  /** Loading a truthful cached result into an object that shows its inputs is running the
      runner: same record, same object afterwards. */
  lemma {:induction false} LoadIsRun(w: World, stages: seq<Stage>, i: nat, id: string, st: ObjState, r: FilterResult, values: map<Key, Value>)
    requires WellFormed(stages) && DisciplinedStack(w, stages) && i < |stages|
    requires Truthful(w, id, stages[i], r) && Agrees(st, r)
    requires i == 0 ==> st == InitialState(w.serverId, id)
    requires values.Keys == r.outputs.Keys
    requires forall k :: k in values ==> Murmur(values[k]) == r.outputs[k]
    ensures r.omits <= (st.attrs + values).Keys
    ensures RunStage(w, stages[i], id, st) ==
            Run(Finished(r), ObjState(st.attrs + values, st.omit + r.omits * (st.attrs + values).Keys))
  {
    var run := RunStage(w, stages[i], id, st);
    var loaded := ObjState(st.attrs + values, st.omit + r.omits);
    if i > 0 {
      Reproduces(w, stages, id, i, r, st);
      ExecEffect(w.behaviour(stages[i].filter.digest), st, EMPTY_RESULT);
    }
    forall k ensures SigOf(run.state, k) == SigOf(loaded, k) {
      if k in r.outputs {
        assert SigOf(run.state, k) == Some(r.outputs[k]);
      }
    }
    SameSignatures(run.state, loaded);
    assert run.state.omit == loaded.omit;
  }

  /** The result entries of the first n runners for one object. */
  function EntriesOf(stages: seq<Stage>, id: string, results: map<(CacheId, string), FilterResult>, n: nat): (cached: Cached)
    requires n <= |stages|
    ensures forall i: nat :: i in cached <==> i < n && (CacheIdOf(stages[i]), id) in results
    ensures forall i :: i in cached ==> cached[i] == results[(CacheIdOf(stages[i]), id)]
  {
    if n == 0 then map[]
    else
      var rest := EntriesOf(stages, id, results, n - 1);
      var key := (CacheIdOf(stages[n - 1]), id);
      if key in results then rest[n - 1 := results[key]] else rest
  }

  /** A runner that ran just now leaves a truthful record whose outputs the object holds,
      and however it ended the object has lost no attribute. */
  lemma {:induction false} NewRecord(w: World, stages: seq<Stage>, i: nat, id: string, st: ObjState)
    requires WellFormed(stages) && i < |stages|
    requires i == 0 ==> st == InitialState(w.serverId, id)
    ensures var run := RunStage(w, stages[i], id, st);
            && st.attrs.Keys <= run.state.attrs.Keys
            && (run.ending.Finished? ==>
                  && Truthful(w, id, stages[i], run.ending.result)
                  && run.ending.result.outputs.Keys <= run.state.attrs.Keys)
  {
    if i > 0 {
      var p := w.behaviour(stages[i].filter.digest);
      ExecKeepsKeys(p, st, EMPTY_RESULT);
      if Exec(p, st, EMPTY_RESULT).ending.Finished? {
        ExecEffect(p, st, EMPTY_RESULT);
        var run := RunStage(w, stages[i], id, st);
        assert forall k :: k in run.ending.result.outputs ==> SigOf(run.state, k).Some?;
      }
    }
  }

  method StoreAll(obj: DiamondObject, values: map<Key, Value>)
    requires obj.Valid()
    modifies obj
    ensures obj.Valid()
    ensures obj.State() == old(obj.State()).(attrs := old(obj.attrs) + values)
  {
    var todo := values.Keys;
    while todo != {}
      invariant obj.Valid() && todo <= values.Keys
      invariant obj.omitAttrs == old(obj.omitAttrs)
      invariant obj.attrs == old(obj.attrs) + (map k | k in values && k !in todo :: values[k])
      decreases todo
    {
      var key :| key in todo;
      obj.SetItem(key, values[key]);
      todo := todo - {key};
    }
    assert (map k | k in values && k !in todo :: values[k]) == values;
  }

  method OmitAll(obj: DiamondObject, names: set<Key>)
    requires obj.Valid()
    modifies obj
    ensures obj.Valid()
    ensures obj.State() == old(obj.State()).(omit := old(obj.omitAttrs) + names * old(obj.attrs).Keys)
  {
    var todo := names;
    while todo != {}
      invariant obj.Valid() && todo <= names && obj.attrs == old(obj.attrs)
      invariant obj.omitAttrs == old(obj.omitAttrs) + (names - todo) * obj.attrs.Keys
      decreases todo
    {
      var key :| key in todo;
      var _ := obj.Omit(key);  // a missing attribute is only logged
      todo := todo - {key};
    }
  }

  class FilterStackRunner {
    const w: World
    const stages: seq<Stage>
    const redis: Redis?   // null when caching is not configured

    ghost predicate Ready()
      reads this, redis
    {
      && WellFormed(stages) && DisciplinedStack(w, stages)
      && (redis != null ==> redis.Truthful(w))
    }

    constructor (w: World, stages: seq<Stage>, redis: Redis?)
      ensures this.w == w && this.stages == stages && this.redis == redis
    {
      this.w, this.stages, this.redis := w, stages, redis;
    }

    predicate Holds(d: Digest)
      reads this, redis
    {
      redis != null && d in redis.attributes
    }

    method InputsShown(obj: DiamondObject, r: FilterResult) returns (shown: bool)
      requires obj.Valid()
      ensures shown <==> Agrees(obj.State(), r)
    {
      var todo := r.inputs.Keys;
      while todo != {}
        invariant todo <= r.inputs.Keys
        invariant forall k :: k in r.inputs && k !in todo ==> r.inputs[k] == SigOf(obj.State(), k)
        decreases todo
      {
        var key :| key in todo;
        var valsig := r.inputs[key];
        if valsig.None? && key in obj.attrs {
          return false;
        }
        if valsig.Some? && (key !in obj.attrs || obj.signatures[key] != valsig.value) {
          return false;
        }
        todo := todo - {key};
      }
      return true;
    }

    method CachedValues(r: FilterResult) returns (values: Option<map<Key, Value>>)
      requires Ready()
      ensures values.Some? <==> forall k :: k in r.outputs ==> Holds(r.outputs[k])
      ensures values.Some? ==> values.value.Keys == r.outputs.Keys
      ensures values.Some? ==> forall k :: k in r.outputs ==> Murmur(values.value[k]) == r.outputs[k]
    {
      var found: map<Key, Value> := map[];
      var todo := r.outputs.Keys;
      while todo != {}
        invariant todo <= r.outputs.Keys && found.Keys == r.outputs.Keys - todo
        invariant forall k :: k in found ==> Holds(r.outputs[k]) && Murmur(found[k]) == r.outputs[k]
        decreases todo
      {
        var key :| key in todo;
        if !Holds(r.outputs[key]) {
          return None;
        }
        found := found[key := redis.attributes[r.outputs[key]]];
        todo := todo - {key};
      }
      return Some(found);
    }

    /** _attribute_cache_try_load(): it succeeds exactly when the object shows the recorded
        inputs and every recorded output value is cached; if it succeeds it has run the
        runner, if not it has done nothing. */
    method TryLoad(i: nat, obj: DiamondObject, r: FilterResult) returns (ok: bool)
      requires Ready() && obj.Valid() && i < |stages|
      requires Truthful(w, obj.id, stages[i], r)
      requires i == 0 ==> obj.State() == InitialState(w.serverId, obj.id)
      modifies obj
      ensures obj.Valid()
      ensures ok <==> Agrees(old(obj.State()), r) && forall k :: k in r.outputs ==> Holds(r.outputs[k])
      ensures ok ==> Run(Finished(r), obj.State()) == RunStage(w, stages[i], obj.id, old(obj.State()))
      ensures !ok ==> obj.State() == old(obj.State())
    {
      var shown := InputsShown(obj, r);
      if !shown {
        return false;
      }
      var values := CachedValues(r);
      if values.None? {
        return false;
      }
      LoadIsRun(w, stages, i, obj.id, obj.State(), r, values.value);
      StoreAll(obj, values.value);
      OmitAll(obj, r.omits);
      return true;
    }

    /** Run the fetcher or the filter on the object. */
    method RunRunner(i: nat, obj: DiamondObject) returns (ending: Ending)
      requires obj.Valid() && i < |stages|
      modifies obj
      ensures obj.Valid()
      ensures Run(ending, obj.State()) == RunStage(w, stages[i], obj.id, old(obj.State()))
    {
      match stages[i]
      case Runner(f) =>
        ending := ServeFilter(w.behaviour(f.digest), obj);
      case Fetcher =>
        match w.fetch(obj.id)
        case Unloadable(partial) =>
          StoreAll(obj, partial);
          ending := Died;
        case Loaded(values) =>
          StoreAll(obj, values);
          ending := Finished(FilterResult(map[], obj.signatures, {}, 0.0));
          assert obj.signatures == map k | k in obj.attrs :: Murmur(obj.attrs[k]);
    }

    function Results(): map<(CacheId, string), FilterResult>
      reads this, redis
    {
      if redis == null then map[] else redis.results
    }

    /** One turn of the loop: load the prior result into the object, or run the runner. */
    method LoadOrRun(i: nat, obj: DiamondObject, cached: Cached) returns (ending: Ending, isNew: bool)
      requires Ready() && obj.Valid() && i < |stages| && TruthfulCache(w, obj.id, stages, cached)
      requires i == 0 ==> obj.State() == InitialState(w.serverId, obj.id)
      modifies obj
      ensures obj.Valid()
      ensures Run(ending, obj.State()) == RunStage(w, stages[i], obj.id, old(obj.State()))
      ensures isNew <==> !(i in cached && Agrees(old(obj.State()), cached[i])
                           && forall k :: k in cached[i].outputs ==> Holds(cached[i].outputs[k]))
    {
      if i in cached {
        var loaded := TryLoad(i, obj, cached[i]);
        if loaded {
          return Finished(cached[i]), false;
        }
      }
      ending := RunRunner(i, obj);
      return ending, true;
    }

    /** The result entries of this stack for one object. */
    method LookUp(id: string) returns (cached: Cached)
      requires Ready()
      ensures cached == EntriesOf(stages, id, Results(), |stages|)
      ensures TruthfulCache(w, id, stages, cached)
    {
      cached := map[];
      for i := 0 to |stages|
        invariant cached == EntriesOf(stages, id, Results(), i)
      {
        var key := (CacheIdOf(stages[i]), id);
        if key in Results() {
          cached := cached[i := Results()[key]];
        }
      }
    }

    ghost predicate NewRecords(obj: DiamondObject, newResults: map<nat, FilterResult>)
      reads obj
    {
      forall j :: j in newResults ==>
        && j < |stages|
        && Truthful(w, obj.id, stages[j], newResults[j])
        && newResults[j].outputs.Keys <= obj.attrs.Keys
    }

    predicate IsEntry(newResults: map<nat, FilterResult>, j: nat, id: string, e: (CacheId, string), r: FilterResult) {
      j in newResults && j < |stages| && e == (CacheIdOf(stages[j]), id) && r == newResults[j]
    }

    /** Some new record is to be stored under e. */
    predicate HasEntry(newResults: map<nat, FilterResult>, id: string, e: (CacheId, string)) {
      exists j :: j in newResults && j < |stages| && e == (CacheIdOf(stages[j]), id)
    }

    /** s is the hash of an output of record r that the object still shows. */
    predicate ShownOutput(st: ObjState, r: FilterResult, s: Digest) {
      exists k :: k in r.outputs && r.outputs[k] == s && SigOf(st, k) == Some(s)
    }

    /** What is to be stored: the new records, and the output values of slow filters unless another
        filter has overwritten them since. */
    method NewEntries(obj: DiamondObject, newResults: map<nat, FilterResult>)
      returns (results: map<(CacheId, string), FilterResult>, attributes: map<Digest, Value>)
      requires obj.Valid() && NewRecords(obj, newResults)
      ensures forall e :: e in results ==> exists j :: IsEntry(newResults, j, obj.id, e, results[e])
      ensures forall j :: j in newResults ==> (CacheIdOf(stages[j]), obj.id) in results
      ensures forall s :: s in attributes ==> Murmur(attributes[s]) == s
      ensures forall s :: s in attributes ==> exists j :: j in newResults && ShownOutput(obj.State(), newResults[j], s)
    {
      results, attributes := map[], map[];
      var todo := newResults.Keys;
      while todo != {}
        invariant todo <= newResults.Keys
        invariant forall e :: e in results ==> exists j :: IsEntry(newResults, j, obj.id, e, results[e])
        invariant forall j :: j in newResults && j !in todo ==> (CacheIdOf(stages[j]), obj.id) in results
        invariant forall s :: s in attributes ==> Murmur(attributes[s]) == s
        invariant forall s :: s in attributes ==> exists j :: j in newResults && ShownOutput(obj.State(), newResults[j], s)
        decreases todo
      {
        var j :| j in todo;
        var key := (CacheIdOf(stages[j]), obj.id);
        assert IsEntry(newResults, j, obj.id, key, newResults[j]);
        results := results[key := newResults[j]];
        var slow := *;  // result.cache_output, decided by the clock
        if slow {
          attributes := OutputValues(obj, newResults[j], attributes);
        }
        todo := todo - {j};
      }
    }

    /** The `finally` block: store them.  Redis may refuse the update. */
    method Update(obj: DiamondObject, newResults: map<nat, FilterResult>) returns (stored: bool)
      requires Ready() && redis != null && obj.Valid() && NewRecords(obj, newResults)
      modifies redis
      ensures Ready()
      ensures !stored ==> redis.results == old(redis.results) && redis.attributes == old(redis.attributes)
      ensures stored ==> forall e :: e in redis.results <==> e in old(redis.results) || HasEntry(newResults, obj.id, e)
      ensures stored ==> forall e :: e in redis.results ==>
        if HasEntry(newResults, obj.id, e) then exists j :: IsEntry(newResults, j, obj.id, e, redis.results[e])
        else redis.results[e] == old(redis.results)[e]
      ensures old(redis.attributes.Keys) <= redis.attributes.Keys
      ensures forall s :: s in redis.attributes && s !in old(redis.attributes) ==>
        exists j :: j in newResults && ShownOutput(obj.State(), newResults[j], s)
    {
      var results, attributes := NewEntries(obj, newResults);
      assert forall e :: e in results <==> HasEntry(newResults, obj.id, e) by {
        assert forall e, j :: e in results && IsEntry(newResults, j, obj.id, e, results[e]) ==> HasEntry(newResults, obj.id, e);
      }
      stored := *;
      if stored {
        redis.results, redis.attributes := redis.results + results, redis.attributes + attributes;
      }
    }

    method OutputValues(obj: DiamondObject, r: FilterResult, sofar: map<Digest, Value>) returns (attributes: map<Digest, Value>)
      requires obj.Valid() && r.outputs.Keys <= obj.attrs.Keys
      requires forall s :: s in sofar ==> Murmur(sofar[s]) == s
      ensures forall s :: s in attributes ==> Murmur(attributes[s]) == s
      ensures forall s :: s in attributes <==> s in sofar || ShownOutput(obj.State(), r, s)
    {
      attributes := sofar;
      var todo := r.outputs.Keys;
      while todo != {}
        invariant todo <= r.outputs.Keys
        invariant forall s :: s in attributes ==> Murmur(attributes[s]) == s
        invariant forall s :: s in attributes ==> s in sofar || ShownOutput(obj.State(), r, s)
        invariant sofar.Keys <= attributes.Keys
        invariant forall k :: k in r.outputs && k !in todo && SigOf(obj.State(), k) == Some(r.outputs[k]) ==>
          r.outputs[k] in attributes
        decreases todo
      {
        var key :| key in todo;
        if r.outputs[key] == obj.signatures[key] {
          assert ShownOutput(obj.State(), r, r.outputs[key]);
          attributes := attributes[r.outputs[key] := obj.attrs[key]];
        }
        todo := todo - {key};
      }
    }

    /** The filter loop of _evaluate(), with the records of the runners it really ran. */
    method FilterLoop(obj: DiamondObject, cached: Cached) returns (verdict: Verdict, newResults: map<nat, FilterResult>)
      requires Ready() && obj.Valid() && TruthfulCache(w, obj.id, stages, cached)
      requires obj.State() == InitialState(w.serverId, obj.id)
      modifies obj, redis
      ensures obj.Valid() && Ready()
      ensures Outcome(verdict, obj.State()) == Plain(w, stages, obj.id)
      ensures NewRecords(obj, newResults)
    {
      newResults := map[];
      var i: nat := 0;
      while i < |stages|
        invariant i <= |stages|
        invariant obj.Valid() && Ready()
        invariant i == 0 ==> obj.State() == InitialState(w.serverId, obj.id)
        invariant PlainFrom(w, stages, obj.id, i, obj.State()) == Plain(w, stages, obj.id)
        invariant NewRecords(obj, newResults)
      {
        if redis != null {
          redis.Interfere(w);
        }
        NewRecord(w, stages, i, obj.id, obj.State());
        var ending, isNew := LoadOrRun(i, obj, cached);
        if isNew && ending.Finished? {
          newResults := newResults[i := ending.result];
        }
        match ending {
          case Died =>
            return Drop, newResults;
          case Aborted =>
            return Fail, newResults;
          case Finished(result) =>
            if !Threshold(stages[i], result) {
              return Drop, newResults;
            }
            if stages[i].Runner? {
              obj.SetItem(ScoreKey(stages[i].filter.name), w.scoreText(result.score));
            }
        }
        i := i + 1;
      }
      return Accept, newResults;
    }

    /** _evaluate(): the cached drop, then the filter loop, then the update of both caches. */
    method Evaluate(obj: DiamondObject) returns (verdict: Verdict, viaCache: bool)
      requires Ready() && obj.Valid()
      requires obj.State() == InitialState(w.serverId, obj.id)
      modifies obj, redis
      ensures obj.Valid() && Ready()
      ensures viaCache <==> CacheDrops(stages, EntriesOf(stages, obj.id, old(Results()), |stages|))
      ensures !viaCache ==> Outcome(verdict, obj.State()) == Plain(w, stages, obj.id)
      ensures viaCache ==> verdict == Drop && obj.State() == old(obj.State())
      ensures viaCache && OneWriterPerKey(w, stages, obj.id) && WritersFirst(w, stages, obj.id) ==>
                Plain(w, stages, obj.id).verdict != Accept
    {
      var cached := LookUp(obj.id);
      var hits;
      viaCache, hits := CanDrop(stages, cached);
      if viaCache {
        if OneWriterPerKey(w, stages, obj.id) && WritersFirst(w, stages, obj.id) {
          CachedDropSound(w, stages, obj.id, cached);
        }
        return Drop, true;
      }
      var newResults;
      verdict, newResults := FilterLoop(obj, cached);
      if redis != null {
        redis.Interfere(w);
        var _ := Update(obj, newResults);
      }
    }
  }

  /** Objects evaluated one after the other, by any searches, from an empty database that is
      shared with any number of other workers. */
  method ServeHistory(w: World, searches: seq<(seq<Stage>, string)>) returns (outcomes: seq<Outcome>)
    requires forall n :: 0 <= n < |searches| ==>
      && WellFormed(searches[n].0) && DisciplinedStack(w, searches[n].0)
      && OneWriterPerKey(w, searches[n].0, searches[n].1) && WritersFirst(w, searches[n].0, searches[n].1)
    ensures |outcomes| == |searches|
    ensures forall n :: 0 <= n < |searches| ==>
      var plain := Plain(w, searches[n].0, searches[n].1);
      && (outcomes[n].verdict == Accept <==> plain.verdict == Accept)
      && (outcomes[n].verdict == Accept ==> outcomes[n] == plain)
  {
    var redis := new Redis();
    outcomes := [];
    for n := 0 to |searches|
      invariant fresh(redis) && redis.Truthful(w)
      invariant |outcomes| == n
      invariant forall m :: 0 <= m < n ==>
        var plain := Plain(w, searches[m].0, searches[m].1);
        && (outcomes[m].verdict == Accept <==> plain.verdict == Accept)
        && (outcomes[m].verdict == Accept ==> outcomes[m] == plain)
    {
      var runner := new FilterStackRunner(w, searches[n].0, redis);
      var obj := new DiamondObject(w.serverId, searches[n].1);
      var verdict, _ := runner.Evaluate(obj);
      outcomes := outcomes + [Outcome(verdict, obj.State())];
    }
  }
}
