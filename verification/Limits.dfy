/** Why the caches' assumptions are needed: concrete searches on which the caches, left to
    themselves, change a decision. */
module Limits {
  import opened Wrappers
  import opened Objects
  import opened Filters
  import opened PlainLoop
  import opened ResultCache
  import opened Evaluation

  /** Reports 1 when attribute "k" is missing and 0 when it is "v". */
  ghost function Reader(): Program {
    GetAttribute("k", imap[None := Report(1.0), Some("v") := Report(0.0)])
  }

  ghost function Writer(): Program {
    SetAttribute("k", "v", Report(1.0))
  }

  lemma {:induction false} ReaderRuns(st: ObjState)
    ensures "k" !in st.attrs ==>
      Exec(Reader(), st, EMPTY_RESULT) == Run(Finished(FilterResult(map["k" := None], map[], {}, 1.0)), st)
    ensures "k" in st.attrs && st.attrs["k"] == "v" ==>
      Exec(Reader(), st, EMPTY_RESULT) == Run(Finished(FilterResult(map["k" := Some(Murmur("v"))], map[], {}, 0.0)), st)
  {
    var res := EMPTY_RESULT.(inputs := map["k" := SigOf(st, "k")]);
    assert Exec(Report(1.0), st, res) == Run(Finished(res.(score := 1.0)), st);
    assert Exec(Report(0.0), st, res) == Run(Finished(res.(score := 0.0)), st);
    assert EMPTY_RESULT.inputs["k" := SigOf(st, "k")] == map["k" := SigOf(st, "k")];
  }

  lemma {:induction false} WriterRuns(st: ObjState)
    ensures Exec(Writer(), st, EMPTY_RESULT) ==
      Run(Finished(FilterResult(map[], map["k" := Murmur("v")], {}, 1.0)), st.(attrs := st.attrs["k" := "v"]))
  {
    var res := EMPTY_RESULT.(outputs := map["k" := Murmur("v")]);
    var st' := st.(attrs := st.attrs["k" := "v"]);
    assert Exec(Report(1.0), st', res) == Run(Finished(res.(score := 1.0)), st');
    assert EMPTY_RESULT.outputs["k" := Murmur("v")] == map["k" := Murmur("v")];
  }

  function ReaderFilter(): Filter { Filter("r", "reader", [], 1.0, 1.0) }
  function WriterFilter(): Filter { Filter("w", "writer", [], 1.0, 1.0) }

  ghost function ReaderWriterWorld(): World {
    World("", id => Loaded(map[]), d => if d == "reader" then Reader() else Writer(), r => "")
  }

  lemma {:induction false} ReaderWriterStack(stages: seq<Stage>)
    requires stages == [Fetcher, Runner(ReaderFilter()), Runner(WriterFilter())]
    ensures WellFormed(stages) && DisciplinedStack(ReaderWriterWorld(), stages)
    ensures OneWriterPerKey(ReaderWriterWorld(), stages, "id")
  {
    forall k ensures Writes(ReaderWriterWorld(), "id", stages[0], k) <==> k == ATTR_DEVICE_NAME || k == ATTR_OBJ_ID {
      assert InitialState("", "id").attrs + map[] == InitialState("", "id").attrs;
    }
    forall k ensures Writes(ReaderWriterWorld(), "id", stages[1], k) <==> k == ScoreKey("r") {
      assert !MayWrite(Report(1.0), k) && !MayWrite(Report(0.0), k);
    }
    forall k ensures Writes(ReaderWriterWorld(), "id", stages[2], k) <==> k == "k" || k == ScoreKey("w") {
      assert !MayWrite(Report(1.0), k);
    }
    assert ScoreKey("r")[8] == 'r' && ScoreKey("w")[8] == 'w';
    assert ScoreKey("r")[1] == 'f' && ScoreKey("w")[1] == 'f';
  }

  lemma {:induction false} ReaderFirstAccepts(stages: seq<Stage>)
    requires stages == [Fetcher, Runner(ReaderFilter()), Runner(WriterFilter())]
    ensures Plain(ReaderWriterWorld(), stages, "id").verdict == Accept
  {
    var w := ReaderWriterWorld();
    var st0 := InitialState("", "id");
    var st1 := st0.(attrs := st0.attrs + map[]);
    assert st1.attrs.Keys == {ATTR_DEVICE_NAME, ATTR_OBJ_ID};
    ReaderRuns(st1);
    var st2 := StoreScore(w, stages[1], st1, 1.0);
    WriterRuns(st2);
    var st3 := StoreScore(w, stages[2], st2.(attrs := st2.attrs["k" := "v"]), 1.0);
    assert PlainFrom(w, stages, "id", 3, st3).verdict == Accept;
    assert PlainFrom(w, stages, "id", 2, st2) == PlainFrom(w, stages, "id", 3, st3);
    assert PlainFrom(w, stages, "id", 1, st1) == PlainFrom(w, stages, "id", 2, st2);
  }

  /** What a search over `other` records of one object when its caches were empty: the results of
      all the stages that the object reaches. */
  ghost predicate RecordedBy(w: World, other: seq<Stage>, id: string, results: map<(CacheId, string), FilterResult>) {
    forall n :: 0 <= n < |other| && Reached(w, other, id, n).Some? ==>
      && (CacheIdOf(other[n]), id) in results
      && RunStage(w, other[n], id, Reached(w, other, id, n).value).ending == Finished(results[(CacheIdOf(other[n]), id)])
  }

  const READER_RECORD := FilterResult(map["k" := Some(Murmur("v"))], map[], {}, 0.0)
  const WRITER_RECORD := FilterResult(map[], map["k" := Murmur("v")], {}, 1.0)

  function FetchRecord(): FilterResult {
    var st := InitialState("", "id");
    FilterResult(map[], map k | k in st.attrs :: Murmur(st.attrs[k]), {}, 0.0)
  }

  function WriterFirst(): seq<Stage> { [Fetcher, Runner(WriterFilter()), Runner(ReaderFilter())] }

  function ReaderFirst(): seq<Stage> { [Fetcher, Runner(ReaderFilter()), Runner(WriterFilter())] }

  /** What the search that runs the writer first leaves behind. */
  function Records(): map<(CacheId, string), FilterResult> {
    map[(DataRetriever, "id") := FetchRecord(), (FilterDigest("writer"), "id") := WRITER_RECORD,
        (FilterDigest("reader"), "id") := READER_RECORD]
  }

  lemma {:induction false} WriterFirstRuns()
    ensures var w, other := ReaderWriterWorld(), WriterFirst();
            var st1, st2 := Reached(w, other, "id", 1), Reached(w, other, "id", 2);
            && st1.Some? && st2.Some?
            && RunStage(w, other[0], "id", InitialState("", "id")).ending == Finished(FetchRecord())
            && RunStage(w, other[1], "id", st1.value).ending == Finished(WRITER_RECORD)
            && RunStage(w, other[2], "id", st2.value).ending == Finished(READER_RECORD)
  {
    var w, other, start := ReaderWriterWorld(), WriterFirst(), InitialState("", "id");
    assert start.attrs + map[] == start.attrs;
    assert Reached(w, other, "id", 0) == Some(start);
    var st1 := Reached(w, other, "id", 1).value;
    WriterRuns(st1);
    var st2 := Reached(w, other, "id", 2).value;
    assert st2 == StoreScore(w, other[1], st1.(attrs := st1.attrs["k" := "v"]), 1.0);
    assert ScoreKey("w")[0] == '_';
    assert "k" in st2.attrs && st2.attrs["k"] == "v";
    ReaderRuns(st2);
  }

  lemma {:induction false} WriterFirstRecords()
    ensures RecordedBy(ReaderWriterWorld(), WriterFirst(), "id", Records())
  {
    WriterFirstRuns();
    var w, other := ReaderWriterWorld(), WriterFirst();
    forall n | 0 <= n < |other| && Reached(w, other, "id", n).Some?
      ensures RunStage(w, other[n], "id", Reached(w, other, "id", n).value).ending == Finished(Records()[(CacheIdOf(other[n]), "id")])
    {
      assert n == 0 || n == 1 || n == 2;
    }
  }

  function ReaderFirstCache(): Cached {
    map[0 := FetchRecord(), 1 := READER_RECORD, 2 := WRITER_RECORD]
  }

  lemma {:induction false} ReaderFirstCacheIs()
    ensures EntriesOf(ReaderFirst(), "id", Records(), 3) == ReaderFirstCache()
    ensures TruthfulCache(ReaderWriterWorld(), "id", ReaderFirst(), ReaderFirstCache())
  {
    var cache := EntriesOf(ReaderFirst(), "id", Records(), 3);
    assert forall i: nat :: i in cache <==> i < 3;
    WriterFirstRuns();
  }

  lemma {:induction false} ReaderFirstDrops()
    ensures CacheDrops(ReaderFirst(), ReaderFirstCache())
  {
    var cache := ReaderFirstCache();
    assert Produces(cache, 2, "k", Murmur("v")) && Derivable(cache, 2, 1);
    assert Derivable(cache, 1, 2);
    assert !Threshold(ReaderFirst()[1], cache[1]) && Usable(cache, 1);
  }

  /** The resolution of a cached drop never looks at the order of the runners.  One search runs the
      writer before the reader and fills the cache; a second runs the same two filters the other
      way round: the cache drops an object that the plain loop accepts. */
  lemma {:induction false} CachedDropNeedsWritersFirst()
    ensures RecordedBy(ReaderWriterWorld(), WriterFirst(), "id", Records())
    ensures WellFormed(ReaderFirst()) && DisciplinedStack(ReaderWriterWorld(), ReaderFirst())
    ensures OneWriterPerKey(ReaderWriterWorld(), ReaderFirst(), "id")
    ensures EntriesOf(ReaderFirst(), "id", Records(), 3) == ReaderFirstCache()
    ensures TruthfulCache(ReaderWriterWorld(), "id", ReaderFirst(), ReaderFirstCache())
    ensures CacheDrops(ReaderFirst(), ReaderFirstCache())
    ensures Plain(ReaderWriterWorld(), ReaderFirst(), "id").verdict == Accept
  {
    WriterFirstRecords();
    ReaderFirstCacheIs();
    ReaderFirstDrops();
    ReaderWriterStack(ReaderFirst());
    ReaderFirstAccepts(ReaderFirst());
  }

  /** Reads "k", overwrites it with "b", and reads it back: the record remembers only the
      second reading. */
  ghost function ReReader(): Program {
    GetAttribute("k", imap[Some("a") := WriteAndReRead(1.0), Some("b") := WriteAndReRead(0.0)])
  }

  ghost function WriteAndReRead(score: real): Program {
    SetAttribute("k", "b", GetAttribute("k", imap[Some("b") := Report(score)]))
  }

  lemma {:induction false} ReReaderRuns(value: Value)
    requires value == "a" || value == "b"
    ensures Exec(ReReader(), ObjState(map["k" := value], {}), EMPTY_RESULT).ending ==
      Finished(FilterResult(map["k" := Some(Murmur("b"))], map["k" := Murmur("b")], {}, if value == "a" then 1.0 else 0.0))
  {
    var score := if value == "a" then 1.0 else 0.0;
    var st0, st := ObjState(map["k" := value], {}), ObjState(map["k" := "b"], {});
    var res1 := EMPTY_RESULT.(inputs := map["k" := Some(Murmur(value))]);
    var res2 := res1.(outputs := map["k" := Murmur("b")]);
    var res3 := res2.(inputs := map["k" := Some(Murmur("b"))]);
    assert EMPTY_RESULT.inputs["k" := Some(Murmur(value))] == res1.inputs;
    assert res1.outputs["k" := Murmur("b")] == res2.outputs && res2.inputs["k" := Some(Murmur("b"))] == res3.inputs;
    assert st0.attrs["k" := "b"] == st.attrs;
    var reread := GetAttribute("k", imap[Some("b") := Report(score)]);
    assert Exec(Report(score), st, res3).ending == Finished(res3.(score := score));
    assert Exec(reread, st, res2) == Exec(Report(score), st, res3);
    assert Exec(WriteAndReRead(score), st0, res1) == Exec(reread, st, res2);
  }

  /** The attribute cache trusts that the recorded inputs determine the run.  For a filter that
      reads what it has written they do not: a record made from "a" is accepted for an object
      that shows "b", on which the filter itself reports another score. */
  lemma {:induction false} ReplayNeedsDiscipline()
    ensures !Disciplined(ReReader(), {}, {})
    ensures exists st0, st, r, r' ::
      && Exec(ReReader(), st0, EMPTY_RESULT).ending == Finished(r)
      && Agrees(st, r)
      && Exec(ReReader(), st, EMPTY_RESULT).ending == Finished(r')
      && r.score != r'.score
  {
    ReReaderRuns("a");
    ReReaderRuns("b");
    assert Agrees(ObjState(map["k" := "b"], {}), Exec(ReReader(), ObjState(map["k" := "a"], {}), EMPTY_RESULT).ending.result);
    var reread := GetAttribute("k", imap[Some("b") := Report(1.0)]);
    assert !Disciplined(reread, {"k"}, {"k"});
    assert !Disciplined(WriteAndReRead(1.0), {"k"}, {}) by {
      assert {} + {"k"} == {"k"};
    }
    assert !Disciplined(ReReader(), {}, {}) by {
      assert {} + {"k"} == {"k"};
      assert Some("a") in ReReader().answers;
    }
  }
}
