/** The result cache: when a cached drop decision may stand without running any filter. */
module ResultCache {
  import opened Wrappers
  import opened Objects
  import opened Filters
  import opened PlainLoop

  /** Runner (its position in the stack) to cached result. */
  type Cached = map<nat, FilterResult>

  /** Runner y caches the very value that runner x read under k. */
  predicate Produces(cache: Cached, y: nat, k: Key, sig: Digest) {
    y in cache && k in cache[y].outputs && cache[y].outputs[k] == sig
  }

  /** Runner x is usable with a derivation of at most d levels: it is cached, read no missing
      attribute, and every value it read is cached by a runner usable with fewer levels. */
  ghost predicate Derivable(cache: Cached, x: nat, d: nat)
    decreases d
  {
    && d > 0
    && x in cache
    && forall k :: k in cache[x].inputs ==>
         && cache[x].inputs[k].Some?
         && exists y :: Produces(cache, y, k, cache[x].inputs[k].value) && Derivable(cache, y, d - 1)
  }

  /** The least fixed point: usable with some finite derivation, so never through a cycle. */
  ghost predicate Usable(cache: Cached, x: nat) {
    exists d: nat :: Derivable(cache, x, d)
  }

  lemma {:induction false} DerivableMonotone(cache: Cached, x: nat, d: nat, e: nat)
    requires d <= e && Derivable(cache, x, d)
    ensures Derivable(cache, x, e)
    decreases d
  {
    forall k | k in cache[x].inputs
      ensures exists y :: Produces(cache, y, k, cache[x].inputs[k].value) && Derivable(cache, y, e - 1)
    {
      var y :| Produces(cache, y, k, cache[x].inputs[k].value) && Derivable(cache, y, d - 1);
      DerivableMonotone(cache, y, d - 1, e - 1);
    }
  }

  /** x has a derivation shorter than any derivation of a runner in `blocked`. */
  ghost predicate Unblocked(cache: Cached, blocked: set<nat>, x: nat) {
    exists d: nat :: Derivable(cache, x, d) && forall b :: b in blocked ==> !Derivable(cache, b, d)
  }

  lemma {:induction false} ShortestDerivation(cache: Cached, x: nat, d: nat) returns (m: nat)
    requires Derivable(cache, x, d)
    ensures 0 < m <= d && Derivable(cache, x, m) && !Derivable(cache, x, m - 1)
    decreases d
  {
    m := d;
    if Derivable(cache, x, d - 1) {
      m := ShortestDerivation(cache, x, d - 1);
    }
  }

  /** Why blocking the runners in process loses nothing: a shortest derivation of x never
      comes back to x, nor to a runner that needs a longer one. */
  lemma {:induction false} UnblockedStep(cache: Cached, blocked: set<nat>, x: nat, k: Key)
    requires Unblocked(cache, blocked, x)
    requires x in cache && k in cache[x].inputs
    ensures cache[x].inputs[k].Some?
    ensures exists y :: Produces(cache, y, k, cache[x].inputs[k].value) && Unblocked(cache, blocked + {x}, y)
  {
    var d: nat :| Derivable(cache, x, d) && forall b :: b in blocked ==> !Derivable(cache, b, d);
    var m := ShortestDerivation(cache, x, d);
    var y :| Produces(cache, y, k, cache[x].inputs[k].value) && Derivable(cache, y, m - 1);
    forall b | b in blocked + {x} ensures !Derivable(cache, b, m - 1) {
      if b in blocked && Derivable(cache, b, m - 1) {
        DerivableMonotone(cache, b, m - 1, d);
      }
    }
    assert Unblocked(cache, blocked + {x}, y);
  }

  /** A set of usable runners that contains a producer of everything its members read. */
  ghost predicate Supported(cache: Cached, s: set<nat>) {
    && (forall x :: x in s ==> x in cache && Usable(cache, x))
    && (forall x, k :: x in s && k in cache[x].inputs ==>
          && cache[x].inputs[k].Some?
          && exists y :: y in s && Produces(cache, y, k, cache[x].inputs[k].value))
  }

  lemma {:induction false} SupportedUnion(cache: Cached, s: set<nat>, t: set<nat>)
    requires Supported(cache, s) && Supported(cache, t)
    ensures Supported(cache, s + t)
  {
    forall x, k | x in s + t && k in cache[x].inputs
      ensures cache[x].inputs[k].Some?
      ensures exists y :: y in s + t && Produces(cache, y, k, cache[x].inputs[k].value)
    {
      if x in s {
        var y :| y in s && Produces(cache, y, k, cache[x].inputs[k].value);
        assert y in s + t;
      } else {
        var y :| y in t && Produces(cache, y, k, cache[x].inputs[k].value);
        assert y in s + t;
      }
    }
  }

  lemma {:induction false} UniformDepth(cache: Cached, s: set<nat>) returns (d: nat)
    requires forall x :: x in s ==> Usable(cache, x)
    ensures forall x :: x in s ==> Derivable(cache, x, d)
    decreases |s|
  {
    if s == {} {
      d := 0;
    } else {
      var x :| x in s;
      var e: nat :| Derivable(cache, x, e);
      d := UniformDepth(cache, s - {x});
      forall y | y in s ensures Derivable(cache, y, d + e) {
        if y == x {
          DerivableMonotone(cache, x, e, d + e);
        } else {
          DerivableMonotone(cache, y, d, d + e);
        }
      }
      d := d + e;
    }
  }

  /** A runner whose inputs are all produced within a supported set joins it. */
  lemma {:induction false} SupportedWith(cache: Cached, x: nat, s: set<nat>)
    requires Supported(cache, s) && x in cache
    requires forall k :: k in cache[x].inputs ==>
      && cache[x].inputs[k].Some?
      && exists y :: y in s && Produces(cache, y, k, cache[x].inputs[k].value)
    ensures Usable(cache, x) && Supported(cache, s + {x})
  {
    var d := UniformDepth(cache, s);
    assert Derivable(cache, x, d + 1);
    forall z, k | z in s + {x} && k in cache[z].inputs
      ensures cache[z].inputs[k].Some?
      ensures exists y :: y in s + {x} && Produces(cache, y, k, cache[z].inputs[k].value)
    {
      var y :| y in s && Produces(cache, y, k, cache[z].inputs[k].value);
      assert y in s + {x};
    }
  }

  predicate Lists(index: map<Key, seq<nat>>, k: Key, y: nat) {
    k in index && y in index[k]
  }

  /** The state shared by the resolve() calls of one object. */
  class Resolver {
    const cache: Cached
    const producers: map<Key, seq<nat>>   // output key -> runners, as output_attrs in the source
    var resolved: map<nat, set<nat>>
    var inprocess: set<nat>

    ghost predicate Indexed() {
      && (forall k, y :: Lists(producers, k, y) ==> y in cache && k in cache[y].outputs)
      && (forall y, k :: y in cache && k in cache[y].outputs ==> Lists(producers, k, y))
    }

    ghost predicate Valid()
      reads this
    {
      && Indexed()
      && inprocess <= cache.Keys
      && forall x :: x in resolved ==> x in resolved[x] && Supported(cache, resolved[x])
    }

    constructor (cache: Cached)
      ensures Valid() && this.cache == cache && inprocess == {}
    {
      this.cache := cache;
      var index: map<Key, seq<nat>> := map[];
      var todo := cache.Keys;
      while todo != {}
        invariant todo <= cache.Keys
        invariant forall k, y :: Lists(index, k, y) ==> y in cache && k in cache[y].outputs
        invariant forall y, k :: y in cache && y !in todo && k in cache[y].outputs ==> Lists(index, k, y)
        decreases todo
      {
        var y :| y in todo;
        index := AddOutputs(index, y, cache[y].outputs.Keys);
        todo := todo - {y};
      }
      producers := index;
      resolved, inprocess := map[], {};
    }

    /** resolve(): the runner with its transitive support if its cached result is usable. */
    method Resolve(runner: nat) returns (deps: Option<set<nat>>)
      requires Valid()
      modifies this
      ensures Valid() && inprocess == old(inprocess)
      ensures deps.Some? ==> runner in deps.value && Supported(cache, deps.value)
      ensures Unblocked(cache, inprocess, runner) ==> deps.Some?
      decreases cache.Keys - inprocess, 0
    {
      if runner in resolved {
        return Some(resolved[runner]);
      }
      if runner !in cache {
        return None;
      }
      if runner in inprocess {
        return None;
      }
      ghost var blocked := inprocess;
      var result := cache[runner];
      inprocess := inprocess + {runner};
      var dependencies := {runner};
      ghost var support := {};
      var todo := result.inputs.Keys;
      while todo != {}
        invariant Valid() && inprocess == blocked + {runner}
        invariant todo <= result.inputs.Keys
        invariant dependencies == support + {runner} && Supported(cache, support)
        invariant forall k :: k in result.inputs && k !in todo ==>
          && result.inputs[k].Some?
          && exists y :: y in support && Produces(cache, y, k, result.inputs[k].value)
        decreases todo
      {
        var key :| key in todo;
        if result.inputs[key].None? {
          inprocess := inprocess - {runner};
          if Unblocked(cache, blocked, runner) {
            UnblockedStep(cache, blocked, runner, key);
          }
          return None;
        }
        var found := ResolveInput(key, result.inputs[key].value);
        if found.None? {
          inprocess := inprocess - {runner};
          if Unblocked(cache, blocked, runner) {
            UnblockedStep(cache, blocked, runner, key);
          }
          return None;
        }
        SupportedUnion(cache, support, found.value);
        dependencies, support := dependencies + found.value, support + found.value;
        todo := todo - {key};
      }
      SupportedWith(cache, runner, support);
      resolved := resolved[runner := dependencies];
      inprocess := inprocess - {runner};
      return Some(dependencies);
    }

    /** The inner loop of resolve(): a usable runner that cached exactly this value. */
    method ResolveInput(key: Key, sig: Digest) returns (found: Option<set<nat>>)
      requires Valid()
      modifies this
      ensures Valid() && inprocess == old(inprocess)
      ensures found.Some? ==> Supported(cache, found.value)
      ensures found.Some? ==> exists y :: y in found.value && Produces(cache, y, key, sig)
      ensures (exists y :: Produces(cache, y, key, sig) && Unblocked(cache, inprocess, y)) ==> found.Some?
      decreases cache.Keys - inprocess, 1
    {
      var candidates := if key in producers then producers[key] else [];
      for n := 0 to |candidates|
        invariant Valid() && inprocess == old(inprocess)
        invariant forall m :: 0 <= m < n ==>
          !(Produces(cache, candidates[m], key, sig) && Unblocked(cache, inprocess, candidates[m]))
      {
        var cur := candidates[n];
        assert Lists(producers, key, cur);
        if cache[cur].outputs[key] != sig {
          continue;
        }
        found := Resolve(cur);
        if found.Some? {
          return found;
        }
      }
      return None;
    }
  }

  method AddOutputs(index: map<Key, seq<nat>>, y: nat, keys: set<Key>) returns (r: map<Key, seq<nat>>)
    ensures forall k, x :: Lists(r, k, x) <==> Lists(index, k, x) || (k in keys && x == y)
  {
    r := index;
    var todo := keys;
    while todo != {}
      invariant todo <= keys
      invariant forall k, x :: Lists(r, k, x) <==> Lists(index, k, x) || (k in keys - todo && x == y)
      decreases todo
    {
      var k :| k in todo;
      var sofar := if k in r then r[k] else [];
      assert forall x :: x in sofar + [y] <==> Lists(r, k, x) || x == y;
      ghost var before := r;
      r := r[k := sofar + [y]];
      assert forall j, x :: Lists(r, j, x) <==> Lists(before, j, x) || (j == k && x == y);
      todo := todo - {k};
    }
  }

  /** A top-level resolve() is exact: it answers with a support exactly when the runner is
      in the least fixed point, whatever cycles the cache holds and whatever earlier calls
      left in the memo table. */
  method ResolveTop(r: Resolver, runner: nat) returns (deps: Option<set<nat>>)
    requires r.Valid() && r.inprocess == {}
    modifies r
    ensures r.Valid() && r.inprocess == {}
    ensures deps.Some? <==> Usable(r.cache, runner)
    ensures deps.Some? ==> runner in deps.value && Supported(r.cache, deps.value)
  {
    assert Usable(r.cache, runner) ==> Unblocked(r.cache, {}, runner);
    deps := r.Resolve(runner);
  }

  /** Some usable cached result misses its threshold. */
  ghost predicate CacheDrops(stages: seq<Stage>, cache: Cached)
    requires forall r :: r in cache ==> r < |stages|
  {
    exists r :: r in cache && !Threshold(stages[r], cache[r]) && Usable(cache, r)
  }

  /** _result_cache_can_drop(): exactly when some usable cached result misses its threshold;
      `hits` is the set of runners told that they took part. */
  method CanDrop(stages: seq<Stage>, cache: Cached) returns (drop: bool, hits: set<nat>)
    requires forall r :: r in cache ==> r < |stages|
    ensures drop <==> CacheDrops(stages, cache)
    ensures drop ==> exists r :: r in hits && r in cache && !Threshold(stages[r], cache[r])
    ensures if drop then Supported(cache, hits) else hits == {}
  {
    var resolver := new Resolver(cache);
    var todo := cache.Keys;
    while todo != {}
      invariant resolver.Valid() && resolver.inprocess == {} && resolver.cache == cache && fresh(resolver)
      invariant todo <= cache.Keys
      invariant forall r :: r in cache && r !in todo && !Threshold(stages[r], cache[r]) ==> !Usable(cache, r)
      decreases todo
    {
      var runner :| runner in todo;
      if !Threshold(stages[runner], cache[runner]) {
        var deps := ResolveTop(resolver, runner);
        if deps.Some? {
          return true, deps.value;
        }
      }
      todo := todo - {runner};
    }
    return false, {};
  }

  // ---------------------------------------------------------------- soundness of a cached drop

  /** What a result cache key identifies, apart from the object. */
  datatype CacheId = DataRetriever | FilterDigest(digest: string)

  function CacheIdOf(stage: Stage): CacheId {
    match stage
    case Fetcher => DataRetriever
    case Runner(f) => FilterDigest(f.digest)
  }

  /** A cached result is the record of some finished run of the same runner on the same
      object: for a filter, on whatever attributes the object had at that time. */
  ghost predicate TruthfulEntry(w: World, cid: CacheId, id: string, r: FilterResult) {
    match cid
    case DataRetriever => RunStage(w, Fetcher, id, InitialState(w.serverId, id)).ending == Finished(r)
    case FilterDigest(d) => exists st :: Exec(w.behaviour(d), st, EMPTY_RESULT).ending == Finished(r)
  }

  ghost predicate Truthful(w: World, id: string, stage: Stage, r: FilterResult) {
    TruthfulEntry(w, CacheIdOf(stage), id, r)
  }

  ghost predicate TruthfulCache(w: World, id: string, stages: seq<Stage>, cache: Cached) {
    forall r :: r in cache ==> r < |stages| && Truthful(w, id, stages[r], cache[r])
  }

  /** From an object that shows what the record read, the filter reproduces the record. */
  lemma {:induction false} Reproduces(w: World, stages: seq<Stage>, id: string, i: nat, r: FilterResult, st: ObjState)
    requires i < |stages| && stages[i].Runner? && DisciplinedStack(w, stages)
    requires Truthful(w, id, stages[i], r) && Agrees(st, r)
    ensures RunStage(w, stages[i], id, st).ending == Finished(r)
  {
    var p := w.behaviour(stages[i].filter.digest);
    var st0 :| Exec(p, st0, EMPTY_RESULT).ending == Finished(r);
    assert EMPTY_RESULT.inputs.Keys == {} && EMPTY_RESULT.outputs.Keys == {};
    ExecReplays(p, st0, st, EMPTY_RESULT);
  }

  /** What a truthful record names, its runner can touch. */
  lemma {:induction false} TruthfulWithinStage(w: World, id: string, stage: Stage, r: FilterResult)
    requires Truthful(w, id, stage, r)
    ensures forall k :: k in r.inputs ==> Reads(w, stage, k)
    ensures forall k :: k in r.outputs ==> Writes(w, id, stage, k)
  {
    if stage.Runner? {
      var p := w.behaviour(stage.filter.digest);
      var st0 :| Exec(p, st0, EMPTY_RESULT).ending == Finished(r);
      RecordWithinProgram(p, st0, EMPTY_RESULT);
    }
  }

  /** If stage j reproduces its record and is reached, the object still shows its outputs at
      every later stage: nobody else writes those keys. */
  lemma {:induction false} OutputsPersist(w: World, stages: seq<Stage>, id: string, j: nat, r: FilterResult, i: nat, k: Key)
    requires WellFormed(stages) && OneWriterPerKey(w, stages, id)
    requires j < i <= |stages| && Reached(w, stages, id, i).Some? && Reached(w, stages, id, j).Some?
    requires RunStage(w, stages[j], id, Reached(w, stages, id, j).value).ending == Finished(r)
    requires k in r.outputs
    ensures SigOf(Reached(w, stages, id, i).value, k) == Some(r.outputs[k])
  {
    ReachedPrefix(w, stages, id, j + 1, i);
    var st := Reached(w, stages, id, j).value;
    if stages[j].Runner? {
      var p := w.behaviour(stages[j].filter.digest);
      ExecEffect(p, st, EMPTY_RESULT);
      RecordWithinProgram(p, st, EMPTY_RESULT);
      assert MayWrite(p, k);
    }
    assert SigOf(Reached(w, stages, id, j + 1).value, k) == Some(r.outputs[k]);
    assert Writes(w, id, stages[j], k);
    ReachedFrame(w, stages, id, j + 1, i, k);
  }

  /** Nothing is reached beyond a stage that finishes with a result its threshold rejects. */
  lemma {:induction false} BadScoreStops(w: World, stages: seq<Stage>, id: string, x: nat, r: FilterResult)
    requires x < |stages| && !Threshold(stages[x], r)
    requires Reached(w, stages, id, x).Some? ==>
      RunStage(w, stages[x], id, Reached(w, stages, id, x).value).ending == Finished(r)
    ensures Plain(w, stages, id).verdict != Accept
  {
    PlainVsReached(w, stages, id, |stages|);
    if Reached(w, stages, id, |stages|).Some? {
      ReachedPrefix(w, stages, id, x + 1, |stages|);
    }
  }

  /** x has a derivation in which every producer runs before its reader. */
  ghost predicate Forward(cache: Cached, x: nat)
    decreases x
  {
    && x in cache
    && forall k :: k in cache[x].inputs ==>
         && cache[x].inputs[k].Some?
         && exists y: nat :: y < x && Produces(cache, y, k, cache[x].inputs[k].value) && Forward(cache, y)
  }

  /** The heart of the cached drop: when the plain loop gets as far as a runner with a forward
      derivation, that runner reproduces its cached result. */
  lemma {:induction false} ForwardReproduces(w: World, stages: seq<Stage>, id: string, cache: Cached, x: nat)
    requires WellFormed(stages) && DisciplinedStack(w, stages) && OneWriterPerKey(w, stages, id)
    requires TruthfulCache(w, id, stages, cache) && Forward(cache, x) && Reached(w, stages, id, x).Some?
    ensures RunStage(w, stages[x], id, Reached(w, stages, id, x).value).ending == Finished(cache[x])
    decreases x
  {
    if stages[x].Runner? {
      var st := Reached(w, stages, id, x).value;
      forall k | k in cache[x].inputs ensures cache[x].inputs[k] == SigOf(st, k) {
        var y: nat :| y < x && Produces(cache, y, k, cache[x].inputs[k].value) && Forward(cache, y);
        ReachedPrefix(w, stages, id, y, x);
        ForwardReproduces(w, stages, id, cache, y);
        OutputsPersist(w, stages, id, y, cache[y], x, k);
      }
      Reproduces(w, stages, id, x, cache[x], st);
    }
  }

  /** So a rejected score with a forward derivation means a drop, whatever the filters may read. */
  lemma {:induction false} ForwardDropSound(w: World, stages: seq<Stage>, id: string, cache: Cached, x: nat)
    requires WellFormed(stages) && DisciplinedStack(w, stages) && OneWriterPerKey(w, stages, id)
    requires TruthfulCache(w, id, stages, cache) && Forward(cache, x) && !Threshold(stages[x], cache[x])
    ensures Plain(w, stages, id).verdict != Accept
  {
    if Reached(w, stages, id, x).Some? {
      ForwardReproduces(w, stages, id, cache, x);
    }
    BadScoreStops(w, stages, id, x, cache[x]);
  }

  /** A cached producer of a value that a cached reader read runs before the reader. */
  lemma {:induction false} ProducerFirst(w: World, stages: seq<Stage>, id: string, cache: Cached, x: nat, y: nat, k: Key)
    requires WritersFirst(w, stages, id) && TruthfulCache(w, id, stages, cache)
    requires x in cache && k in cache[x].inputs
    requires y in cache && k in cache[y].outputs
    ensures y < x
  {
    TruthfulWithinStage(w, id, stages[x], cache[x]);
    TruthfulWithinStage(w, id, stages[y], cache[y]);
  }

  /** With writers ordered before readers every derivation is a forward one. */
  lemma {:induction false} UsableIsForward(w: World, stages: seq<Stage>, id: string, cache: Cached, x: nat, d: nat)
    requires WritersFirst(w, stages, id) && TruthfulCache(w, id, stages, cache) && Derivable(cache, x, d)
    ensures Forward(cache, x)
    decreases d
  {
    forall k | k in cache[x].inputs
      ensures exists y: nat :: y < x && Produces(cache, y, k, cache[x].inputs[k].value) && Forward(cache, y)
    {
      var y :| Produces(cache, y, k, cache[x].inputs[k].value) && Derivable(cache, y, d - 1);
      ProducerFirst(w, stages, id, cache, x, y, k);
      UsableIsForward(w, stages, id, cache, y, d - 1);
    }
  }

  /** A cached drop is sound: the uncached loop does not accept the object either. */
  lemma {:induction false} CachedDropSound(w: World, stages: seq<Stage>, id: string, cache: Cached)
    requires WellFormed(stages) && DisciplinedStack(w, stages)
    requires OneWriterPerKey(w, stages, id) && WritersFirst(w, stages, id)
    requires TruthfulCache(w, id, stages, cache)
    requires CacheDrops(stages, cache)
    ensures Plain(w, stages, id).verdict != Accept
  {
    var x :| x in cache && !Threshold(stages[x], cache[x]) && Usable(cache, x);
    var d: nat :| Derivable(cache, x, d);
    UsableIsForward(w, stages, id, cache, x, d);
    ForwardDropSound(w, stages, id, cache, x);
  }
}
