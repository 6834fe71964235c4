/** FilterStack: what its order and its de-duplication mean for the search's decisions. */
module Optimize {
  import opened Wrappers
  import opened Objects
  import opened Filters
  import opened PlainLoop
  import opened ResultCache
  import opened FilterStacks

  function Digests(fs: seq<Filter>): set<string> {
    set f | f in fs :: f.digest
  }

  /** The filters that survive: the first one of each digest. */
  function Dedup(fs: seq<Filter>): seq<Filter> {
    if fs == [] then []
    else
      var n := |fs| - 1;
      if fs[n].digest in Digests(fs[..n]) then Dedup(fs[..n]) else Dedup(fs[..n]) + [fs[n]]
  }

  class FilterStack {
    var order: seq<Filter>
    var optimized: bool

    constructor (fs: seq<Filter>)
      ensures order == fs && !optimized
    {
      order, optimized := fs, false;
    }

    /** optimize(): refused, without a change, while a digest is still missing. */
    method Optimize() returns (ok: bool)
      modifies this
      ensures ok <==> old(optimized) || "" !in Digests(old(order))
      ensures optimized == (old(optimized) || ok)
      ensures order == if old(optimized) || !ok then old(order) else Dedup(old(order))
    {
      if optimized {
        return true;
      }
      var newOrder, seen := [], {};
      for n := 0 to |order|
        invariant order == old(order) && optimized == old(optimized)
        invariant newOrder == Dedup(order[..n]) && seen == Digests(order[..n]) && "" !in seen
      {
        var filter := order[n];
        assert order[..n + 1] == order[..n] + [filter] && order[..n + 1][..n] == order[..n];
        assert filter in order;
        if filter.digest == "" {
          return false;
        }
        if filter.digest !in seen {
          newOrder := newOrder + [filter];
          seen := seen + {filter.digest};
        }
        assert Digests(order[..n + 1]) == Digests(order[..n]) + {filter.digest};
      }
      assert order[..|order|] == order;
      order, optimized := newOrder, true;
      return true;
    }
  }

  // ---------------------------------------------------------------- shape of the result

  /** No digest is lost, none survives twice, and the survivors keep their order: the
      survivors of a prefix are a prefix of the survivors. */
  lemma {:induction false} DedupShape(fs: seq<Filter>)
    ensures Digests(Dedup(fs)) == Digests(fs)
    ensures forall i, j :: 0 <= i < j < |Dedup(fs)| ==> Dedup(fs)[i].digest != Dedup(fs)[j].digest
    ensures forall f :: f in Dedup(fs) ==> f in fs
  {
    if fs != [] {
      var n := |fs| - 1;
      DedupShape(fs[..n]);
      assert fs == fs[..n] + [fs[n]];
      assert Digests(fs) == Digests(fs[..n]) + {fs[n].digest};
      if fs[n].digest !in Digests(fs[..n]) {
        var d := Dedup(fs[..n]);
        assert Digests(d + [fs[n]]) == Digests(d) + {fs[n].digest};
        forall i | 0 <= i < |d| ensures d[i].digest != fs[n].digest {
          assert d[i].digest in Digests(d);
        }
      }
    }
  }

  lemma {:induction false} DedupPrefix(fs: seq<Filter>, n: nat)
    requires n <= |fs|
    ensures Dedup(fs[..n]) <= Dedup(fs)
    decreases |fs| - n
  {
    if n < |fs| {
      DedupPrefix(fs, n + 1);
      assert fs[..n + 1][..n] == fs[..n];
    } else {
      assert fs[..n] == fs;
    }
  }

  /** Where a survivor ends up. */
  lemma {:induction false} SurvivorPosition(fs: seq<Filter>, n: nat)
    requires n < |fs| && fs[n].digest !in Digests(fs[..n])
    ensures |Dedup(fs[..n])| < |Dedup(fs)| && Dedup(fs)[|Dedup(fs[..n])|] == fs[n]
  {
    assert fs[..n + 1][..n] == fs[..n];
    DedupPrefix(fs, n + 1);
  }

  /** A survivor keeps, before it, a filter of the digest of everything that was before it:
      in particular of each of its dependencies. */
  lemma {:induction false} DependenciesKept(fs: seq<Filter>, n: nat, m: nat)
    requires m < n < |fs| && fs[n].digest !in Digests(fs[..n])
    ensures var p := |Dedup(fs[..n])|;
            && p < |Dedup(fs)| && Dedup(fs)[p] == fs[n]
            && exists q :: 0 <= q < p && Dedup(fs)[q].digest == fs[m].digest
  {
    var before := Dedup(fs[..n]);
    SurvivorPosition(fs, n);
    DedupPrefix(fs, n);
    DedupShape(fs[..n]);
    assert fs[..n][m] in fs[..n];
    assert fs[m].digest in Digests(before);
    var f :| f in before && f.digest == fs[m].digest;
    var q :| 0 <= q < |before| && before[q] == f;
    assert Dedup(fs)[q] == before[q];
  }

  // ---------------------------------------------------------------- declared dependencies suffice

  function Ordered(filters: seq<Filter>, order: seq<nat>): seq<Filter>
    requires forall i :: 0 <= i < |order| ==> order[i] < |filters|
  {
    seq(|order|, i requires 0 <= i < |order| => filters[order[i]])
  }

  /** If every filter declares a dependency on the writers of what it reads, the order that
      construction finds is one in which a cached drop is sound. */
  lemma {:induction false} DeclaredReadsAreOrdered(w: World, id: string, filters: seq<Filter>, order: seq<nat>)
    requires CompleteOrder(filters, order)
    requires forall x: nat, y: nat, k :: x < |filters| && y < |filters| ==>
      (Reads(w, Runner(filters[x]), k) && Writes(w, id, Runner(filters[y]), k) ==> Edge(filters, x, y))
    ensures WritersFirst(w, StagesOf(Ordered(filters, order)), id)
  {
    var stages := StagesOf(Ordered(filters, order));
    forall i, j, k | 0 <= i < |stages| && 0 <= j < |stages| && Reads(w, stages[i], k) && Writes(w, id, stages[j], k)
      ensures j < i
    {
      assert stages[i] == Runner(filters[order[i - 1]]);
      if j > 0 {
        assert stages[j] == Runner(filters[order[j - 1]]);
        assert Edge(filters, order[i - 1], order[j - 1]);
        assert order[j - 1] in order[..i - 1];
      }
    }
  }

  // ---------------------------------------------------------------- decisions after optimize()

  /** The assumptions of the caches, on the filters that survive. */
  ghost predicate WellBehaved(w: World, id: string, stages: seq<Stage>) {
    && DisciplinedStack(w, stages)
    && OneWriterPerKey(w, stages, id)
    && WritersFirst(w, stages, id)
  }

  /** A removed filter g asks for nothing that its survivor f did not already ensure. */
  predicate Covers(f: Filter, g: Filter) {
    && f.digest == g.digest && f.name == g.name
    && g.minScore <= f.minScore && f.maxScore <= g.maxScore
  }

  /** The record of stage i in the plain loop, when the loop gets past it. */
  ghost function RecordAt(w: World, id: string, stages: seq<Stage>, i: nat): FilterResult
    requires i < |stages| && Reached(w, stages, id, i + 1).Some?
  {
    RunStage(w, stages[i], id, Reached(w, stages, id, i).value).ending.result
  }

  /** After a stage has run, what it read keeps showing: its inputs have no later writer. */
  lemma {:induction false} InputsKeepShowing(w: World, id: string, stages: seq<Stage>, j: nat, i: nat)
    requires WellFormed(stages) && DisciplinedStack(w, stages) && WritersFirst(w, stages, id)
    requires 0 < j < i <= |stages| && Reached(w, stages, id, i).Some? && Reached(w, stages, id, j + 1).Some?
    ensures Agrees(Reached(w, stages, id, i).value, RecordAt(w, id, stages, j))
    ensures Agrees(Reached(w, stages, id, j).value, RecordAt(w, id, stages, j))
  {
    var p := w.behaviour(stages[j].filter.digest);
    var st := Reached(w, stages, id, j).value;
    var r := RecordAt(w, id, stages, j);
    assert EMPTY_RESULT.inputs.Keys == {} && EMPTY_RESULT.outputs.Keys == {};
    ExecInputs(p, st, st, EMPTY_RESULT);
    RecordWithinProgram(p, st, EMPTY_RESULT);
    forall k | k in r.inputs ensures r.inputs[k] == SigOf(Reached(w, stages, id, i).value, k) {
      assert Reads(w, stages[j], k);
      ReachedFrame(w, stages, id, j, i, k);
    }
  }

  /** After a stage has run, what it did stays done: outputs, omissions and score. */
  lemma {:induction false} EffectsPersist(w: World, id: string, stages: seq<Stage>, j: nat, i: nat)
    requires WellFormed(stages) && OneWriterPerKey(w, stages, id)
    requires 0 < j < i <= |stages| && Reached(w, stages, id, i).Some? && Reached(w, stages, id, j + 1).Some?
    ensures var st := Reached(w, stages, id, i).value;
            var r := RecordAt(w, id, stages, j);
            (forall k :: k in r.outputs ==> SigOf(st, k) == Some(r.outputs[k])) && r.omits <= st.omit
    ensures SigOf(Reached(w, stages, id, i).value, ScoreKey(stages[j].filter.name))
            == Some(Murmur(w.scoreText(RecordAt(w, id, stages, j).score)))
  {
    var p := w.behaviour(stages[j].filter.digest);
    var r := RecordAt(w, id, stages, j);
    var st := Reached(w, stages, id, i).value;
    ExecEffect(p, Reached(w, stages, id, j).value, EMPTY_RESULT);
    forall k | k in r.outputs ensures SigOf(st, k) == Some(r.outputs[k]) {
      OutputsPersist(w, stages, id, j, r, i, k);
    }
    ReachedKeepsOmissions(w, stages, id, j + 1, i);
    var scoreKey := ScoreKey(stages[j].filter.name);
    assert Writes(w, id, stages[j], scoreKey);
    ReachedFrame(w, stages, id, j + 1, i, scoreKey);
  }

  /** Running the digest of stage q once more, at any later stage, changes nothing. */
  lemma {:induction false} RerunIsNoOp(w: World, id: string, stages: seq<Stage>, j: nat, i: nat, g: Filter)
    requires WellFormed(stages) && WellBehaved(w, id, stages)
    requires 0 < j < i <= |stages| && Covers(stages[j].filter, g)
    requires Reached(w, stages, id, i).Some?
    ensures var st := Reached(w, stages, id, i).value;
            Settle(w, Runner(g), RunStage(w, Runner(g), id, st)) == Continue(st)
  {
    ReachedPrefix(w, stages, id, j + 1, i);
    var program := w.behaviour(g.digest);
    var st := Reached(w, stages, id, i).value;
    var r := RecordAt(w, id, stages, j);
    InputsKeepShowing(w, id, stages, j, i);
    EffectsPersist(w, id, stages, j, i);
    Reproduces(w, stages, id, j, r, st);
    ExecEffect(program, st, EMPTY_RESULT);
    var run := Exec(program, st, EMPTY_RESULT);
    SameSignatures(run.state, st);
    assert run.state.omit == st.omit;
    var scoreKey := ScoreKey(g.name);
    assert st.attrs[scoreKey := w.scoreText(r.score)] == st.attrs;
  }

  /** Every filter that optimize() removes from fs is covered by its survivor. */
  ghost predicate AllCovered(fs: seq<Filter>) {
    forall n, m :: 0 <= m < n < |fs| && fs[m].digest == fs[n].digest && fs[m].digest !in Digests(fs[..m]) ==>
      Covers(fs[m], fs[n])
  }

  lemma {:induction false} FirstOfDigest(fs: seq<Filter>, digest: string) returns (m: nat)
    requires digest in Digests(fs)
    ensures m < |fs| && fs[m].digest == digest && digest !in Digests(fs[..m])
  {
    var n := |fs| - 1;
    assert fs == fs[..n] + [fs[n]];
    if digest in Digests(fs[..n]) {
      m := FirstOfDigest(fs[..n], digest);
      assert fs[..n][..m] == fs[..m];
    } else {
      m := n;
    }
  }

  /** At a removed filter the full stack stands still. */
  lemma {:induction false} RemovedStep(w: World, id: string, fs: seq<Filter>, n: nat)
    requires WellBehaved(w, id, StagesOf(Dedup(fs))) && AllCovered(fs)
    requires n < |fs| && fs[n].digest in Digests(fs[..n]) && |Dedup(fs[..n])| <= |Dedup(fs)|
    requires Reached(w, StagesOf(Dedup(fs)), id, 1 + |Dedup(fs[..n])|).Some?
    ensures var st := Reached(w, StagesOf(Dedup(fs)), id, 1 + |Dedup(fs[..n])|).value;
            Settle(w, Runner(fs[n]), RunStage(w, Runner(fs[n]), id, st)) == Continue(st)
  {
    var m := FirstOfDigest(fs[..n], fs[n].digest);
    assert fs[..n][..m] == fs[..m];
    SurvivorPosition(fs, m);
    SurvivorPosition(fs[..n], m);
    RerunIsNoOp(w, id, StagesOf(Dedup(fs)), 1 + |Dedup(fs[..m])|, 1 + |Dedup(fs[..n])|, fs[n]);
  }

  /** How many runners of the optimized stack cover the first n of the full one. */
  function Position(fs: seq<Filter>, n: nat): nat
    requires n <= |fs| + 1
  {
    if n == 0 then 0 else 1 + |Dedup(fs[..n - 1])|
  }

  lemma {:induction false} PositionsBounded(fs: seq<Filter>) returns (pos: seq<nat>)
    ensures |pos| == |StagesOf(fs)| + 1 && pos[0] == 0 && pos[|fs| + 1] == |StagesOf(Dedup(fs))|
    ensures forall m :: 0 <= m < |pos| ==> pos[m] == Position(fs, m) <= |StagesOf(Dedup(fs))|
  {
    pos := seq(|fs| + 2, n requires 0 <= n < |fs| + 2 => Position(fs, n));
    forall m | 0 <= m < |pos| ensures pos[m] <= |StagesOf(Dedup(fs))| {
      if m > 0 {
        DedupPrefix(fs, m - 1);
      }
    }
    assert fs[..|fs|] == fs;
  }

  /** Position n + 2 is one further on than position n + 1, unless filter n is removed. */
  lemma {:induction false} NextPosition(fs: seq<Filter>, n: nat)
    requires n < |fs|
    ensures |Dedup(fs[..n + 1])| == |Dedup(fs[..n])| + if fs[n].digest in Digests(fs[..n]) then 0 else 1
  {
    assert fs[..n + 1][..n] == fs[..n];
  }

  lemma {:induction false} RemovedStands(w: World, id: string, fs: seq<Filter>, n: nat, p: nat)
    requires WellBehaved(w, id, StagesOf(Dedup(fs))) && AllCovered(fs)
    requires n < |fs| && fs[n].digest in Digests(fs[..n]) && p == 1 + |Dedup(fs[..n])| <= 1 + |Dedup(fs)|
    ensures forall st :: Reached(w, StagesOf(Dedup(fs)), id, p) == Some(st) ==>
      Settle(w, StagesOf(fs)[n + 1], RunStage(w, StagesOf(fs)[n + 1], id, st)) == Continue(st)
  {
    if Reached(w, StagesOf(Dedup(fs)), id, p).Some? {
      RemovedStep(w, id, fs, n);
    }
  }

  lemma {:induction false} StandsAt(w: World, id: string, fs: seq<Filter>, pos: seq<nat>, n: nat)
    requires WellBehaved(w, id, StagesOf(Dedup(fs))) && AllCovered(fs)
    requires |pos| == |fs| + 2 && forall m :: 0 <= m < |pos| ==> pos[m] <= |StagesOf(Dedup(fs))|
    requires n < |fs| && fs[n].digest in Digests(fs[..n])
    requires pos[n + 1] == pos[n + 2] == 1 + |Dedup(fs[..n])|
    ensures Stutters(w, id, StagesOf(fs), StagesOf(Dedup(fs)), pos, n + 1)
  {
    RemovedStands(w, id, fs, n, pos[n + 1]);
  }

  lemma {:induction false} AdvancesAt(w: World, id: string, fs: seq<Filter>, pos: seq<nat>, n: nat)
    requires |pos| == |fs| + 2 && forall m :: 0 <= m < |pos| ==> pos[m] <= |StagesOf(Dedup(fs))|
    requires n < |fs| && fs[n].digest !in Digests(fs[..n])
    requires pos[n + 1] == 1 + |Dedup(fs[..n])| && pos[n + 2] == pos[n + 1] + 1
    ensures Stutters(w, id, StagesOf(fs), StagesOf(Dedup(fs)), pos, n + 1)
  {
    SurvivorPosition(fs, n);
  }

  lemma {:induction false} StandsOrAdvances(w: World, id: string, fs: seq<Filter>, pos: seq<nat>, n: nat)
    requires WellBehaved(w, id, StagesOf(Dedup(fs))) && AllCovered(fs)
    requires |pos| == |fs| + 2 && forall m :: 0 <= m < |pos| ==> pos[m] <= |StagesOf(Dedup(fs))|
    requires n <= |fs| && pos[n] == Position(fs, n) && pos[n + 1] == Position(fs, n + 1)
    ensures Stutters(w, id, StagesOf(fs), StagesOf(Dedup(fs)), pos, n)
  {
    if n == 0 {
      assert fs[..0] == [];
    } else {
      NextPosition(fs, n - 1);
      if fs[n - 1].digest in Digests(fs[..n - 1]) {
        StandsAt(w, id, fs, pos, n - 1);
      } else {
        AdvancesAt(w, id, fs, pos, n - 1);
      }
    }
  }

  /** optimize() changes no outcome. */
  lemma {:induction false} OptimizeKeepsOutcome(w: World, id: string, fs: seq<Filter>)
    requires WellBehaved(w, id, StagesOf(Dedup(fs))) && AllCovered(fs)
    ensures Plain(w, StagesOf(fs), id) == Plain(w, StagesOf(Dedup(fs)), id)
  {
    var full, kept := StagesOf(fs), StagesOf(Dedup(fs));
    var pos := PositionsBounded(fs);
    forall n | 0 <= n < |full| ensures Stutters(w, id, full, kept, pos, n) {
      assert pos[n] == Position(fs, n) && pos[n + 1] == Position(fs, n + 1);
      StandsOrAdvances(w, id, fs, pos, n);
    }
    StutteringOutcome(w, id, full, kept, pos, 0, InitialState(w.serverId, id));
  }

  // ---------------------------------------------------------------- thresholds are not in the digest

  /** A world whose filters read and write nothing and only report a score. */
  function ScoringWorld(score: string -> real): World {
    World("", id => Loaded(map[]), digest => Report(score(digest)), r => "")
  }

  lemma {:induction false} ScoringWorldBehaves(score: string -> real, id: string, fs: seq<Filter>)
    requires forall i, j :: 0 <= i < j < |fs| ==> fs[i].name != fs[j].name
    ensures WellBehaved(ScoringWorld(score), id, StagesOf(fs))
  {
    var w, stages := ScoringWorld(score), StagesOf(fs);
    forall i, j, k | 0 <= i < j < |stages| && Writes(w, id, stages[i], k)
      ensures !Writes(w, id, stages[j], k)
    {
      if i > 0 && k == ScoreKey(stages[j].filter.name) {
        ScoreKeyInjective(stages[i].filter.name, stages[j].filter.name);
      } else {
        assert ScoreKey(stages[j].filter.name)[1] == 'f';
      }
    }
  }

  /** There the decision is just the conjunction of the threshold tests. */
  lemma {:induction false} ScoringDecision(score: string -> real, id: string, fs: seq<Filter>, n: nat)
    requires n <= |fs|
    ensures Reached(ScoringWorld(score), StagesOf(fs), id, 1 + n).Some? <==>
            forall i :: 0 <= i < n ==> fs[i].minScore <= score(fs[i].digest) <= fs[i].maxScore
  {
    if n > 0 {
      ScoringDecision(score, id, fs, n - 1);
      assert StagesOf(fs)[n] == Runner(fs[n - 1]);
    }
  }

  lemma {:induction false} ScoringVerdict(score: string -> real, id: string, fs: seq<Filter>)
    ensures Plain(ScoringWorld(score), StagesOf(fs), id).verdict == Accept <==>
            forall i :: 0 <= i < |fs| ==> fs[i].minScore <= score(fs[i].digest) <= fs[i].maxScore
  {
    ScoringDecision(score, id, fs, |fs|);
    PlainVsReached(ScoringWorld(score), StagesOf(fs), id, |fs| + 1);
  }

  predicate NonEmptyInterval(f: Filter) {
    f.minScore <= f.maxScore
  }

  /** `bad` for the digest under test; for the others a score that their survivor accepts. */
  ghost function ScoreFor(kept: seq<Filter>, digest: string, bad: real, d: string): real {
    if d == digest then bad
    else if exists i :: 0 <= i < |kept| && kept[i].digest == d
    then var i :| 0 <= i < |kept| && kept[i].digest == d; kept[i].minScore
    else 0.0
  }

  lemma {:induction false} PassesSurvivors(fs: seq<Filter>, p: nat, bad: real)
    requires p < |Dedup(fs)| && Dedup(fs)[p].minScore <= bad <= Dedup(fs)[p].maxScore
    requires forall f :: f in Dedup(fs) ==> NonEmptyInterval(f)
    ensures var kept := Dedup(fs);
            forall i :: 0 <= i < |kept| ==>
              kept[i].minScore <= ScoreFor(kept, kept[p].digest, bad, kept[i].digest) <= kept[i].maxScore
  {
    DedupShape(fs);
    var kept := Dedup(fs);
    forall i | 0 <= i < |kept|
      ensures kept[i].minScore <= ScoreFor(kept, kept[p].digest, bad, kept[i].digest) <= kept[i].maxScore
    {
      assert kept[i] in Dedup(fs) && NonEmptyInterval(kept[i]);
    }
  }

  /** A score that every survivor accepts and the removed filter does not. */
  lemma {:induction false} TellingScore(fs: seq<Filter>, m: nat, n: nat) returns (score: string -> real)
    requires m < n < |fs| && fs[m].digest == fs[n].digest && fs[m].digest !in Digests(fs[..m])
    requires fs[m].name == fs[n].name && !Covers(fs[m], fs[n])
    requires forall f :: f in Dedup(fs) ==> NonEmptyInterval(f)
    ensures !(fs[n].minScore <= score(fs[n].digest) <= fs[n].maxScore)
    ensures var kept := Dedup(fs);
            forall i :: 0 <= i < |kept| ==> kept[i].minScore <= score(kept[i].digest) <= kept[i].maxScore
  {
    var kept := Dedup(fs);
    SurvivorPosition(fs, m);
    assert NonEmptyInterval(fs[m]);
    var bad := if fs[m].minScore < fs[n].minScore then fs[m].minScore else fs[m].maxScore;
    score := digest => ScoreFor(kept, fs[m].digest, bad, digest);
    PassesSurvivors(fs, |Dedup(fs[..m])|, bad);
  }

  /** A removed filter whose interval its survivor's exceeds: some world tells the stacks apart. */
  lemma {:induction false} UncoveredChangesDecision(id: string, fs: seq<Filter>, m: nat, n: nat) returns (w: World)
    requires m < n < |fs| && fs[m].digest == fs[n].digest && fs[m].digest !in Digests(fs[..m])
    requires fs[m].name == fs[n].name && !Covers(fs[m], fs[n])
    requires forall f :: f in Dedup(fs) ==> NonEmptyInterval(f)
    requires forall i, j :: 0 <= i < j < |Dedup(fs)| ==> Dedup(fs)[i].name != Dedup(fs)[j].name
    ensures WellBehaved(w, id, StagesOf(Dedup(fs)))
    ensures Plain(w, StagesOf(Dedup(fs)), id).verdict == Accept
    ensures Plain(w, StagesOf(fs), id).verdict != Accept
  {
    var score := TellingScore(fs, m, n);
    w := ScoringWorld(score);
    ScoringWorldBehaves(score, id, Dedup(fs));
    ScoringVerdict(score, id, Dedup(fs));
    ScoringVerdict(score, id, fs);
  }

  /** optimize() keeps every outcome exactly when the survivors' score intervals lie within
      those of the filters removed for them.  The digest does not cover the intervals, so this
      is a condition on the search, not a consequence of equal digests. */
  lemma {:induction false} OptimizeSafeExactly(id: string, fs: seq<Filter>)
    requires forall i, j :: 0 <= i < j < |fs| && fs[i].digest == fs[j].digest ==> fs[i].name == fs[j].name
    requires forall f :: f in Dedup(fs) ==> NonEmptyInterval(f)
    requires forall i, j :: 0 <= i < j < |Dedup(fs)| ==> Dedup(fs)[i].name != Dedup(fs)[j].name
    ensures AllCovered(fs) <==>
            forall w :: WellBehaved(w, id, StagesOf(Dedup(fs))) ==>
              Plain(w, StagesOf(fs), id) == Plain(w, StagesOf(Dedup(fs)), id)
  {
    if AllCovered(fs) {
      forall w | WellBehaved(w, id, StagesOf(Dedup(fs)))
        ensures Plain(w, StagesOf(fs), id) == Plain(w, StagesOf(Dedup(fs)), id)
      {
        OptimizeKeepsOutcome(w, id, fs);
      }
    } else {
      var n, m :| 0 <= m < n < |fs| && fs[m].digest == fs[n].digest && fs[m].digest !in Digests(fs[..m])
        && !Covers(fs[m], fs[n]);
      var w := UncoveredChangesDecision(id, fs, m, n);
      assert WellBehaved(w, id, StagesOf(Dedup(fs)));
    }
  }
}
