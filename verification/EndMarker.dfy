/** The end of a search is announced by an object without attributes.  When can an accepted object
    be mistaken for it? */
module EndMarker {
  import opened Wrappers
  import opened Objects
  import opened Filters
  import opened PlainLoop
  import opened Programs

  // ---------------------------------------------------------------- the last score is sent

  /** Only present attributes are omitted. */
  lemma {:induction false} OmitsWithin(w: World, stages: seq<Stage>, id: string, i: nat)
    requires WellFormed(stages) && i <= |stages| && Reached(w, stages, id, i).Some?
    ensures Reached(w, stages, id, i).value.omit <= Reached(w, stages, id, i).value.attrs.Keys
  {
    if i > 0 {
      OmitsWithin(w, stages, id, i - 1);
      if i > 1 {
        var p, st := w.behaviour(stages[i - 1].filter.digest), Reached(w, stages, id, i - 1).value;
        ExecEffect(p, st, EMPTY_RESULT);
        ExecKeepsKeys(p, st, EMPTY_RESULT);
      }
    }
  }

  /** Nobody but its own scoring writes the last filter's score attribute. */
  ghost predicate ScoreReserved(w: World, id: string, fs: seq<Filter>)
    requires fs != []
  {
    var n := |fs| - 1;
    && (forall j :: 0 <= j <= n ==> !Writes(w, id, StagesOf(fs)[j], ScoreKey(fs[n].name)))
    && !MayWrite(w.behaviour(fs[n].digest), ScoreKey(fs[n].name))
  }

  /** Then the score of the last filter is stored when nothing can omit it any more, so an accepted
      object is sent with at least that attribute. */
  lemma {:induction false} LastScoreIsSent(w: World, id: string, fs: seq<Filter>, outputs: Option<set<Key>>)
    requires fs != [] && ScoreReserved(w, id, fs)
    requires Plain(w, StagesOf(fs), id).verdict == Accept
    ensures ScoreKey(fs[|fs| - 1].name) in Sent(Plain(w, StagesOf(fs), id).state, outputs)
  {
    var stages, n := StagesOf(fs), |fs|;
    var k := ScoreKey(fs[n - 1].name);
    PlainVsReached(w, stages, id, n + 1);
    ReachedPrefix(w, stages, id, n, n + 1);
    AbsentSoFar(w, stages, id, n, k);
    OmitsWithin(w, stages, id, n);
    LastRunLeavesIt(w, fs[n - 1], Reached(w, stages, id, n).value, k);
    assert stages[n] == Runner(fs[n - 1]);
  }

  lemma {:induction false} LastRunLeavesIt(w: World, f: Filter, st: ObjState, k: Key)
    requires k !in st.attrs && st.omit <= st.attrs.Keys && !MayWrite(w.behaviour(f.digest), k)
    requires Exec(w.behaviour(f.digest), st, EMPTY_RESULT).ending.Finished?
    ensures k !in Exec(w.behaviour(f.digest), st, EMPTY_RESULT).state.omit
  {
    var p := w.behaviour(f.digest);
    ExecEffect(p, st, EMPTY_RESULT);
    RecordWithinProgram(p, st, EMPTY_RESULT);
    var run := Exec(p, st, EMPTY_RESULT);
    assert k !in run.ending.result.outputs && SigOf(run.state, k) == SigOf(st, k);
  }

  /** In particular under the caches' own assumption of one writer for each attribute. */
  lemma {:induction false} OneWriterIsEnough(w: World, id: string, fs: seq<Filter>, outputs: Option<set<Key>>)
    requires fs != [] && OneWriterPerKey(w, StagesOf(fs), id)
    requires Plain(w, StagesOf(fs), id).verdict == Accept
    ensures Sent(Plain(w, StagesOf(fs), id).state, outputs) != map[]
  {
    var stages, n := StagesOf(fs), |fs|;
    assert stages[n] == Runner(fs[n - 1]);
    forall j | 0 <= j < n ensures !Writes(w, id, stages[j], ScoreKey(fs[n - 1].name)) {
      assert Writes(w, id, stages[n], ScoreKey(fs[n - 1].name));
    }
    LastScoreIsSent(w, id, fs, outputs);
  }

  /** Without filters nothing is omitted. */
  lemma {:induction false} NoFilters(w: World, id: string, outputs: Option<set<Key>>)
    requires Plain(w, StagesOf([]), id).verdict == Accept
    ensures Sent(Plain(w, StagesOf([]), id).state, outputs) != map[]
  {
    var stages := StagesOf([]);
    PlainVsReached(w, stages, id, 1);
    var st := Reached(w, stages, id, 1).value;
    assert ATTR_OBJ_ID in st.attrs && st.omit == {};
    NothingSent(st, outputs);
  }

  // ---------------------------------------------------------------- a world in which it is not

  /** The attributes that an object can have in that world. */
  function AllKeys(fs: seq<Filter>): seq<Key> {
    if fs == [] then [ATTR_OBJ_ID, ATTR_DEVICE_NAME, ATTR_DATA, ATTR_DISPLAY_NAME] else AllKeys(fs[..|fs| - 1]) + [ScoreKey(fs[|fs| - 1].name)]
  }

  lemma {:induction false} AllKeysHold(fs: seq<Filter>, i: nat)
    requires i < |fs|
    ensures ScoreKey(fs[i].name) in AllKeys(fs)
  {
    if i < |fs| - 1 {
      AllKeysHold(fs[..|fs| - 1], i);
    }
  }

  lemma {:induction false} AllKeysInitial(fs: seq<Filter>)
    ensures {ATTR_OBJ_ID, ATTR_DEVICE_NAME, ATTR_DATA, ATTR_DISPLAY_NAME} <= KeysIn(AllKeys(fs))
  {
    if fs != [] {
      AllKeysInitial(fs[..|fs| - 1]);
    }
  }

  /** Who may write what: the retriever, apart from what loading always sets, and the filters by
      their digests. */
  datatype Policy = Policy(mayFetch: set<Key>, mayWrite: string -> set<Key>)

  ghost predicate Obeys(w: World, id: string, fs: seq<Filter>, policy: Policy) {
    && Loads(w, id)
    && (w.fetch(id).Loaded? ==> w.fetch(id).values.Keys <= policy.mayFetch + {ATTR_DATA, ATTR_DISPLAY_NAME})
    && forall i, k :: 0 <= i < |fs| && MayWrite(w.behaviour(fs[i].digest), k) ==> k in policy.mayWrite(fs[i].digest)
  }

  /** Nobody may write k, and no filter before the last bears the last one's name. */
  predicate Reserved(fs: seq<Filter>, policy: Policy)
    requires fs != []
  {
    var n := |fs| - 1;
    && ScoreKey(fs[n].name) !in policy.mayFetch
    && (forall i :: 0 <= i <= n ==> ScoreKey(fs[n].name) !in policy.mayWrite(fs[i].digest))
    && (forall i :: 0 <= i < n ==> fs[i].name != fs[n].name)
  }

  /** Every filter that may write k does, and then omits every attribute there can be. */
  ghost function OmittingProgram(keys: seq<Key>, k: Key, writes: bool, score: real): Program {
    if writes then SetAttribute(k, "", Omits(keys, Report(score))) else Omits(keys, Report(score))
  }

  ghost function OmittingWorld(keys: seq<Key>, k: Key, policy: Policy, score: string -> real): World {
    World("", id => Loaded(map[ATTR_DATA := "", ATTR_DISPLAY_NAME := "\0"] + if k in policy.mayFetch then map[k := "\0"] else map[]),
          d => OmittingProgram(keys, k, k in policy.mayWrite(d), score(d)), r => "")
  }

  /** What one filter of that world does: k is there afterwards if it was before, or if the filter
      writes it; and everything there is omitted. */
  lemma {:induction false} OmittingRun(keys: seq<Key>, k: Key, writes: bool, score: real, st: ObjState)
    requires k in keys && st.attrs.Keys <= KeysIn(keys)
    ensures var run := Exec(OmittingProgram(keys, k, writes, score), st, EMPTY_RESULT);
            && run.ending.Finished? && run.ending.result.score == score
            && run.state.attrs.Keys == st.attrs.Keys + (if writes then {k} else {})
            && run.state.attrs.Keys <= run.state.omit
  {
    var mid := if writes then st.(attrs := st.attrs[k := ""]) else st;
    var res := if writes then EMPTY_RESULT.(outputs := EMPTY_RESULT.outputs[k := Murmur("")]) else EMPTY_RESULT;
    assert mid.attrs.Keys == st.attrs.Keys + if writes then {k} else {};
    ExecOmits(keys, Report(score), mid, res);
    assert KeysIn(keys) * mid.attrs.Keys == mid.attrs.Keys;
  }

  /** The same, with the score stored. */
  lemma {:induction false} OmittingStage(fs: seq<Filter>, k: Key, policy: Policy, score: string -> real, id: string, f: Filter, st: ObjState)
    requires k in AllKeys(fs) && st.attrs.Keys <= KeysIn(AllKeys(fs))
    requires f.minScore <= score(f.digest) <= f.maxScore
    ensures var w := OmittingWorld(AllKeys(fs), k, policy, score);
            var written := if k in policy.mayWrite(f.digest) then {k} else {};
            var next := Settle(w, Runner(f), RunStage(w, Runner(f), id, st));
            && next.Continue?
            && next.state.attrs.Keys == st.attrs.Keys + written + {ScoreKey(f.name)}
            && st.attrs.Keys + written <= next.state.omit
  {
    OmittingRun(AllKeys(fs), k, k in policy.mayWrite(f.digest), score(f.digest), st);
  }

  /** Somebody among the retriever and the first i filters has put k there. */
  predicate Taken(fs: seq<Filter>, policy: Policy, k: Key, i: nat)
    requires i <= |fs|
  {
    || k in policy.mayFetch
    || exists j :: 0 <= j < i && (k in policy.mayWrite(fs[j].digest) || ScoreKey(fs[j].name) == k)
  }

  ghost function OmittingState(fs: seq<Filter>, k: Key, policy: Policy, score: string -> real, id: string, i: nat): Option<ObjState>
    requires i <= |fs|
  {
    Reached(OmittingWorld(AllKeys(fs), k, policy, score), StagesOf(fs), id, 1 + i)
  }

  lemma {:induction false} OmittingStart(fs: seq<Filter>, k: Key, policy: Policy, score: string -> real, id: string)
    requires k in AllKeys(fs)
    ensures var st := OmittingState(fs, k, policy, score, id, 0);
            st.Some? && st.value.attrs.Keys <= KeysIn(AllKeys(fs)) && (k in policy.mayFetch ==> k in st.value.attrs)
  {
    var w := OmittingWorld(AllKeys(fs), k, policy, score);
    AllKeysInitial(fs);
    assert Reached(w, StagesOf(fs), id, 0).value == InitialState("", id);
    assert OmittingState(fs, k, policy, score, id, 0).value.attrs == InitialState("", id).attrs + w.fetch(id).values;
  }

  lemma {:induction false} OmittingNext(fs: seq<Filter>, k: Key, policy: Policy, score: string -> real, id: string, i: nat)
    requires i < |fs| && k in AllKeys(fs) && OmittingState(fs, k, policy, score, id, i).Some?
    requires OmittingState(fs, k, policy, score, id, i).value.attrs.Keys <= KeysIn(AllKeys(fs))
    requires fs[i].minScore <= score(fs[i].digest) <= fs[i].maxScore
    ensures var st, st' := OmittingState(fs, k, policy, score, id, i).value, OmittingState(fs, k, policy, score, id, i + 1);
            var written := if k in policy.mayWrite(fs[i].digest) then {k} else {};
            && st'.Some?
            && st'.value.attrs.Keys == st.attrs.Keys + written + {ScoreKey(fs[i].name)}
            && st.attrs.Keys + written <= st'.value.omit
  {
    assert StagesOf(fs)[1 + i] == Runner(fs[i]);
    OmittingStage(fs, k, policy, score, id, fs[i], OmittingState(fs, k, policy, score, id, i).value);
  }

  lemma {:induction false} TakenNext(fs: seq<Filter>, policy: Policy, k: Key, i: nat, before: set<Key>, after: set<Key>)
    requires i < |fs| && k in AllKeys(fs) && before <= KeysIn(AllKeys(fs)) && (Taken(fs, policy, k, i) ==> k in before)
    requires after == before + (if k in policy.mayWrite(fs[i].digest) then {k} else {}) + {ScoreKey(fs[i].name)}
    ensures after <= KeysIn(AllKeys(fs)) && (Taken(fs, policy, k, i + 1) ==> k in after)
  {
    AllKeysHold(fs, i);
  }

  lemma {:induction false} UnreservedIsTaken(fs: seq<Filter>, policy: Policy)
    requires fs != [] && !Reserved(fs, policy)
    ensures var n := |fs| - 1;
            var k := ScoreKey(fs[n].name);
            k in policy.mayWrite(fs[n].digest) || Taken(fs, policy, k, n)
  {
  }

  ghost predicate OmittedSoFar(fs: seq<Filter>, policy: Policy, k: Key, i: nat, st: Option<ObjState>)
    requires i <= |fs|
  {
    st.Some? && st.value.attrs.Keys <= KeysIn(AllKeys(fs)) && (Taken(fs, policy, k, i) ==> k in st.value.attrs)
  }

  lemma {:induction false} OmittingOneMore(fs: seq<Filter>, k: Key, policy: Policy, score: string -> real, id: string, i: nat)
    requires i < |fs| && k in AllKeys(fs) && OmittedSoFar(fs, policy, k, i, OmittingState(fs, k, policy, score, id, i))
    requires fs[i].minScore <= score(fs[i].digest) <= fs[i].maxScore
    ensures OmittedSoFar(fs, policy, k, i + 1, OmittingState(fs, k, policy, score, id, i + 1))
  {
    OmittingNext(fs, k, policy, score, id, i);
    var st, st' := OmittingState(fs, k, policy, score, id, i).value, OmittingState(fs, k, policy, score, id, i + 1).value;
    TakenNext(fs, policy, k, i, st.attrs.Keys, st'.attrs.Keys);
  }

  lemma {:induction false} OmittingReached(fs: seq<Filter>, k: Key, policy: Policy, score: string -> real, id: string, i: nat)
    requires i <= |fs| && k in AllKeys(fs)
    requires forall j :: 0 <= j < |fs| ==> fs[j].minScore <= score(fs[j].digest) <= fs[j].maxScore
    ensures OmittedSoFar(fs, policy, k, i, OmittingState(fs, k, policy, score, id, i))
  {
    if i == 0 {
      OmittingStart(fs, k, policy, score, id);
    } else {
      OmittingReached(fs, k, policy, score, id, i - 1);
      OmittingOneMore(fs, k, policy, score, id, i - 1);
    }
  }

  /** If the score attribute of the last filter is not reserved, an accepted object is mistaken for
      the end of the search in some world. */
  lemma {:induction false} UnreservedIsMistaken(fs: seq<Filter>, policy: Policy, score: string -> real, id: string, outputs: Option<set<Key>>)
    returns (w: World)
    requires fs != [] && !Reserved(fs, policy)
    requires forall j :: 0 <= j < |fs| ==> fs[j].minScore <= score(fs[j].digest) <= fs[j].maxScore
    ensures Obeys(w, id, fs, policy)
    ensures Plain(w, StagesOf(fs), id).verdict == Accept && Sent(Plain(w, StagesOf(fs), id).state, outputs) == map[]
  {
    var n := |fs| - 1;
    var k := ScoreKey(fs[n].name);
    AllKeysHold(fs, n);
    w := OmittingWorld(AllKeys(fs), k, policy, score);
    OmittingObeys(fs, k, policy, score, id);
    OmittingReached(fs, k, policy, score, id, n);
    OmittingNext(fs, k, policy, score, id, n);
    var st := OmittingState(fs, k, policy, score, id, n + 1).value;
    UnreservedIsTaken(fs, policy);
    PlainVsReached(w, StagesOf(fs), id, n + 2);
    NothingSent(st, outputs);
  }

  lemma {:induction false} OmittingObeys(fs: seq<Filter>, k: Key, policy: Policy, score: string -> real, id: string)
    ensures Obeys(OmittingWorld(AllKeys(fs), k, policy, score), id, fs, policy)
  {
    var w := OmittingWorld(AllKeys(fs), k, policy, score);
    forall i, x | 0 <= i < |fs| && MayWrite(w.behaviour(fs[i].digest), x) ensures x in policy.mayWrite(fs[i].digest) {
      OmitsWritesNothing(AllKeys(fs), score(fs[i].digest), x);
    }
  }

  // ---------------------------------------------------------------- exactly

  lemma {:induction false} ReservedIsEnough(w: World, id: string, fs: seq<Filter>, policy: Policy, outputs: Option<set<Key>>)
    requires fs != [] && Reserved(fs, policy) && Obeys(w, id, fs, policy)
    requires Plain(w, StagesOf(fs), id).verdict == Accept
    ensures Sent(Plain(w, StagesOf(fs), id).state, outputs) != map[]
  {
    var stages, n := StagesOf(fs), |fs| - 1;
    var k := ScoreKey(fs[n].name);
    assert k[1] == 'f' && ATTR_OBJ_ID[1] == 'O' && ATTR_DEVICE_NAME[1] == 'e' && ATTR_DISPLAY_NAME[1] == 'i';
    forall j | 0 <= j <= n ensures !Writes(w, id, stages[j], k) {
      if j > 0 && ScoreKey(fs[j - 1].name) == k {
        ScoreKeyInjective(fs[j - 1].name, fs[n].name);
      }
    }
    LastScoreIsSent(w, id, fs, outputs);
  }

  /** A search whose scores can be accepted at all never has an accepted object mistaken for its end,
      whatever its filters compute and omit, if and only if there is no filter, or nobody else may
      write the attribute in which the last filter's score is stored. */
  lemma {:induction false} EndMarkerSafeExactly(id: string, fs: seq<Filter>, policy: Policy, score: string -> real)
    requires forall j :: 0 <= j < |fs| ==> fs[j].minScore <= score(fs[j].digest) <= fs[j].maxScore
    ensures fs == [] || Reserved(fs, policy) <==>
            forall w, outputs :: Obeys(w, id, fs, policy) && Plain(w, StagesOf(fs), id).verdict == Accept ==>
              Sent(Plain(w, StagesOf(fs), id).state, outputs) != map[]
  {
    if fs == [] || Reserved(fs, policy) {
      forall w, outputs | Obeys(w, id, fs, policy) && Plain(w, StagesOf(fs), id).verdict == Accept
        ensures Sent(Plain(w, StagesOf(fs), id).state, outputs) != map[]
      {
        if fs == [] {
          NoFilters(w, id, outputs);
        } else {
          ReservedIsEnough(w, id, fs, policy, outputs);
        }
      }
    } else {
      var w := UnreservedIsMistaken(fs, policy, score, id, None);
    }
  }
}
