/** Exactly which cached results make a drop certain, whatever the filters may be. */
module CertainDrops {
  import opened Wrappers
  import opened Objects
  import opened Filters
  import opened PlainLoop
  import opened Programs
  import opened ResultCache

  // ---------------------------------------------------------------- results that must come again

  function ScoreKeyOf(stages: seq<Stage>, y: nat): Option<Key> {
    if y < |stages| && stages[y].Runner? then Some(ScoreKey(stages[y].filter.name)) else None
  }

  /** Stage y writes k for certain: as a recorded output, or as its score. */
  predicate Claims(stages: seq<Stage>, cache: Cached, y: nat, k: Key) {
    y < |stages| && ((y in cache && k in cache[y].outputs) || ScoreKeyOf(stages, y) == Some(k))
  }

  /** What every loaded object has. */
  predicate IsInitial(k: Key) {
    k == ATTR_OBJ_ID || k == ATTR_DEVICE_NAME || k == ATTR_DATA || k == ATTR_DISPLAY_NAME
  }

  /** No stage before x is known to write k. */
  ghost predicate Unwritten(stages: seq<Stage>, cache: Cached, k: Key, x: nat) {
    !IsInitial(k) && forall y: nat :: y < x ==> !Claims(stages, cache, y, k)
  }

  ghost predicate Claimed(stages: seq<Stage>, cache: Cached, k: Key) {
    exists y: nat :: Claims(stages, cache, y, k)
  }

  /** If runner y ends with its cached result, it leaves this under k: an output, or its score. */
  predicate Leaves(text: real -> Value, stages: seq<Stage>, cache: Cached, y: nat, k: Key, sig: Digest) {
    || Produces(cache, y, k, sig)
    || (y in cache && ScoreKeyOf(stages, y) == Some(k) && sig == Murmur(text(cache[y].score)))
  }

  predicate Accepts(f: Filter, score: real) { f.minScore <= score <= f.maxScore }

  /** Whatever score stage y is passed with, this is what it leaves under k. */
  ghost predicate OnlyScore(text: real -> Value, stages: seq<Stage>, y: nat, k: Key, sig: Digest) {
    ScoreKeyOf(stages, y) == Some(k) && forall s :: Accepts(stages[y].filter, s) ==> sig == Murmur(text(s))
  }

  /** Runner x is sure to reproduce its cached result.  Each value it read is left by a sure runner
      before it, or is the only score that a stage before it can be passed with; each attribute it
      found missing is sure to be missing again, because a later stage is its writer or because all
      that runs before is sure and does not write it. */
  ghost predicate Sure(text: real -> Value, stages: seq<Stage>, cache: Cached, x: nat)
    decreases x
  {
    && x < |stages| && x in cache
    && forall k :: k in cache[x].inputs ==>
         match cache[x].inputs[k]
         case Some(sig) =>
           || (exists y: nat :: y < x && Leaves(text, stages, cache, y, k, sig) && Sure(text, stages, cache, y))
           || (exists y: nat :: y < x && OnlyScore(text, stages, y, k, sig))
         case None =>
           && Unwritten(stages, cache, k, x)
           && (Claimed(stages, cache, k) || forall y: nat :: y < x ==> Sure(text, stages, cache, y))
  }

  /** The results that the code itself may rely on are among them, if they are forward. */
  lemma {:induction false} ForwardIsSure(text: real -> Value, stages: seq<Stage>, cache: Cached, x: nat)
    requires Forward(cache, x) && forall y :: y in cache ==> y < |stages|
    ensures Sure(text, stages, cache, x)
    decreases x
  {
    forall k | k in cache[x].inputs
      ensures exists y: nat :: y < x && Leaves(text, stages, cache, y, k, cache[x].inputs[k].value) && Sure(text, stages, cache, y)
    {
      var y: nat :| y < x && Produces(cache, y, k, cache[x].inputs[k].value) && Forward(cache, y);
      ForwardIsSure(text, stages, cache, y);
    }
  }

  // ---------------------------------------------------------------- they do come again

  lemma {:induction false} ClaimsWrites(w: World, stages: seq<Stage>, id: string, cache: Cached, y: nat, k: Key)
    requires TruthfulCache(w, id, stages, cache) && Claims(stages, cache, y, k)
    ensures Writes(w, id, stages[y], k)
  {
    if y in cache && k in cache[y].outputs {
      TruthfulWithinStage(w, id, stages[y], cache[y]);
    }
  }

  /** The score that a stage was passed with shows at every later stage. */
  lemma {:induction false} ScorePersists(w: World, stages: seq<Stage>, id: string, y: nat, x: nat, k: Key) returns (r: FilterResult)
    requires WellFormed(stages) && OneWriterPerKey(w, stages, id)
    requires y < x <= |stages| && ScoreKeyOf(stages, y) == Some(k) && Reached(w, stages, id, x).Some?
    ensures Reached(w, stages, id, y).Some?
    ensures RunStage(w, stages[y], id, Reached(w, stages, id, y).value).ending == Finished(r) && Threshold(stages[y], r)
    ensures SigOf(Reached(w, stages, id, x).value, k) == Some(Murmur(w.scoreText(r.score)))
  {
    ReachedPrefix(w, stages, id, y + 1, x);
    r := RunStage(w, stages[y], id, Reached(w, stages, id, y).value).ending.result;
    assert Writes(w, id, stages[y], k);
    ReachedFrame(w, stages, id, y + 1, x, k);
  }

  /** An attribute with a later writer is missing until then. */
  lemma {:induction false} MissingBeforeWriter(w: World, stages: seq<Stage>, id: string, cache: Cached, x: nat, y: nat, k: Key)
    requires WellFormed(stages) && OneWriterPerKey(w, stages, id) && TruthfulCache(w, id, stages, cache)
    requires 0 < x <= y < |stages| && Claims(stages, cache, y, k) && Reached(w, stages, id, x).Some?
    ensures SigOf(Reached(w, stages, id, x).value, k) == None
  {
    ClaimsWrites(w, stages, id, cache, y, k);
    AbsentSoFar(w, stages, id, x, k);
  }

  /** What no stage so far has written is missing, if all of them are sure. */
  lemma {:induction false} MissingByRecords(w: World, stages: seq<Stage>, id: string, cache: Cached, j: nat, k: Key)
    requires WellFormed(stages) && DisciplinedStack(w, stages) && OneWriterPerKey(w, stages, id)
    requires TruthfulCache(w, id, stages, cache) && 0 < j <= |stages| && Reached(w, stages, id, j).Some?
    requires Unwritten(stages, cache, k, j) && forall y: nat :: y < j ==> Sure(w.scoreText, stages, cache, y)
    ensures SigOf(Reached(w, stages, id, j).value, k) == None
    decreases j, 0, 0
  {
    var st := Reached(w, stages, id, j - 1).value;
    assert Sure(w.scoreText, stages, cache, j - 1) && !Claims(stages, cache, j - 1, k);
    SureReproduces(w, stages, id, cache, j - 1);
    if j > 1 {
      MissingByRecords(w, stages, id, cache, j - 1, k);
      ExecEffect(w.behaviour(stages[j - 1].filter.digest), st, EMPTY_RESULT);
      assert ScoreKeyOf(stages, j - 1) != Some(k);
    }
  }

  lemma {:induction false} SureReproduces(w: World, stages: seq<Stage>, id: string, cache: Cached, x: nat)
    requires WellFormed(stages) && DisciplinedStack(w, stages) && OneWriterPerKey(w, stages, id)
    requires TruthfulCache(w, id, stages, cache) && Sure(w.scoreText, stages, cache, x) && Reached(w, stages, id, x).Some?
    ensures RunStage(w, stages[x], id, Reached(w, stages, id, x).value).ending == Finished(cache[x])
    decreases x, 1
  {
    if x > 0 {
      var st := Reached(w, stages, id, x).value;
      forall k | k in cache[x].inputs ensures cache[x].inputs[k] == SigOf(st, k) {
        SureInput(w, stages, id, cache, x, k);
      }
      Reproduces(w, stages, id, x, cache[x], st);
    }
  }

  lemma {:induction false} SureInput(w: World, stages: seq<Stage>, id: string, cache: Cached, x: nat, k: Key)
    requires WellFormed(stages) && DisciplinedStack(w, stages) && OneWriterPerKey(w, stages, id)
    requires TruthfulCache(w, id, stages, cache) && Sure(w.scoreText, stages, cache, x) && Reached(w, stages, id, x).Some?
    requires x > 0 && k in cache[x].inputs
    ensures cache[x].inputs[k] == SigOf(Reached(w, stages, id, x).value, k)
    decreases x, 0, 1
  {
    match cache[x].inputs[k]
    case Some(sig) =>
      if y: nat :| y < x && OnlyScore(w.scoreText, stages, y, k, sig) {
        var r := ScorePersists(w, stages, id, y, x, k);
        assert Accepts(stages[y].filter, r.score);
      } else {
        var y: nat :| y < x && Leaves(w.scoreText, stages, cache, y, k, sig) && Sure(w.scoreText, stages, cache, y);
        LeftBySure(w, stages, id, cache, y, x, k, sig);
      }
    case None =>
      if Claimed(stages, cache, k) {
        var y: nat :| Claims(stages, cache, y, k);
        assert y >= x;
        MissingBeforeWriter(w, stages, id, cache, x, y, k);
      } else {
        MissingByRecords(w, stages, id, cache, x, k);
      }
  }

  lemma {:induction false} LeftBySure(w: World, stages: seq<Stage>, id: string, cache: Cached, y: nat, x: nat, k: Key, sig: Digest)
    requires WellFormed(stages) && DisciplinedStack(w, stages) && OneWriterPerKey(w, stages, id)
    requires TruthfulCache(w, id, stages, cache) && Sure(w.scoreText, stages, cache, y) && Leaves(w.scoreText, stages, cache, y, k, sig)
    requires y < x <= |stages| && Reached(w, stages, id, x).Some?
    ensures SigOf(Reached(w, stages, id, x).value, k) == Some(sig)
    decreases y, 2
  {
    ReachedPrefix(w, stages, id, y, x);
    SureReproduces(w, stages, id, cache, y);
    if Produces(cache, y, k, sig) {
      OutputsPersist(w, stages, id, y, cache[y], x, k);
    } else {
      var r := ScorePersists(w, stages, id, y, x, k);
    }
  }

  /** A sure result with a rejected score means a drop. */
  lemma {:induction false} SureDropSound(w: World, stages: seq<Stage>, id: string, cache: Cached, x: nat)
    requires WellFormed(stages) && DisciplinedStack(w, stages) && OneWriterPerKey(w, stages, id)
    requires TruthfulCache(w, id, stages, cache) && Sure(w.scoreText, stages, cache, x) && !Threshold(stages[x], cache[x])
    ensures Plain(w, stages, id).verdict != Accept
  {
    if Reached(w, stages, id, x).Some? {
      SureReproduces(w, stages, id, cache, x);
    }
    BadScoreStops(w, stages, id, x, cache[x]);
  }
}
