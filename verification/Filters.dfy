/** Filters as deterministic interactive programs, the server's command loop that serves
    them, and the plain filter loop that uses no cache. */
module Filters {
  import opened Wrappers
  import opened Objects

  /** A filter's behaviour on one object, as the commands it sends down its pipe.  A
      get-attribute continues with the answer (None is the blank reply); an answer the
      filter is not ready for kills it. */
  datatype Program =
    | GetAttribute(key: Key, answers: imap<Option<Value>, Program>)
    | SetAttribute(key: Key, value: Value, next: Program)
    | OmitAttribute(key: Key, ifPresent: Program, ifAbsent: Program)
    | Report(score: real)
    | Crash   // end of file on the pipe after initialization
    | Abort   // an unknown command, or death during initialization

  /** _FilterResult, as it is stored in the result cache. */
  datatype FilterResult = FilterResult(
    inputs: map<Key, Option<Digest>>, outputs: map<Key, Digest>, omits: set<Key>, score: real)

  const EMPTY_RESULT := FilterResult(map[], map[], {}, 0.0)

  datatype Ending = Finished(result: FilterResult) | Died | Aborted
  datatype Run = Run(ending: Ending, state: ObjState)

  // ---------------------------------------------------------------- serving one filter

  /** The command loop, as a function: `st` is the object so far, `res` the record so far. */
  ghost function Exec(p: Program, st: ObjState, res: FilterResult): Run
    decreases p
  {
    match p
    case GetAttribute(key, answers) =>
      var answer := if key in st.attrs then Some(st.attrs[key]) else None;
      if answer in answers
      then Exec(answers[answer], st, res.(inputs := res.inputs[key := SigOf(st, key)]))
      else Run(Died, st)
    case SetAttribute(key, value, next) =>
      Exec(next, st.(attrs := st.attrs[key := value]), res.(outputs := res.outputs[key := Murmur(value)]))
    case OmitAttribute(key, ifPresent, ifAbsent) =>
      if key in st.attrs
      then Exec(ifPresent, st.(omit := st.omit + {key}), res.(omits := res.omits + {key}))
      else Exec(ifAbsent, st, res)
    case Report(score) => Run(Finished(res.(score := score)), st)
    case Crash => Run(Died, st)
    case Abort => Run(Aborted, st)
  }

  /** _FilterRunner.evaluate(): serve the filter's commands until it reports or dies. */
  method ServeFilter(program: Program, obj: DiamondObject) returns (ending: Ending)
    requires obj.Valid()
    modifies obj
    ensures obj.Valid()
    ensures Run(ending, obj.State()) == Exec(program, old(obj.State()), EMPTY_RESULT)
  {
    var p, result := program, EMPTY_RESULT;
    while true
      invariant obj.Valid()
      invariant Exec(p, obj.State(), result) == Exec(program, old(obj.State()), EMPTY_RESULT)
      decreases p
    {
      match p
      case GetAttribute(key, answers) =>
        var answer: Option<Value>;
        if key in obj.attrs {
          answer := Some(obj.attrs[key]);
          result := result.(inputs := result.inputs[key := Some(obj.signatures[key])]);
        } else {
          answer := None;
          result := result.(inputs := result.inputs[key := None]);
        }
        if answer !in answers {
          return Died;
        }
        p := answers[answer];
      case SetAttribute(key, value, next) =>
        obj.SetItem(key, value);
        result := result.(outputs := result.outputs[key := obj.signatures[key]]);
        p := next;
      case OmitAttribute(key, ifPresent, ifAbsent) =>
        var ok := obj.Omit(key);
        if ok {
          result := result.(omits := result.omits + {key});
        }
        p := if ok then ifPresent else ifAbsent;
      case Report(score) =>
        return Finished(result.(score := score));
      case Crash =>
        return Died;
      case Abort =>
        return Aborted;
    }
  }

  // ---------------------------------------------------------------- replaying a record

  /** The assumption on filters: none reads an attribute after writing it, and none omits
      an attribute it has neither read nor written. */
  ghost predicate Disciplined(p: Program, read: set<Key>, written: set<Key>)
    decreases p
  {
    match p
    case GetAttribute(key, answers) =>
      && key !in written
      && forall a :: a in answers ==> Disciplined(answers[a], read + {key}, written)
    case SetAttribute(key, _, next) => Disciplined(next, read, written + {key})
    case OmitAttribute(key, ifPresent, ifAbsent) =>
      && key in read + written
      && Disciplined(ifPresent, read, written)
      && Disciplined(ifAbsent, read, written)
    case _ => true
  }

  /** Every recorded input is what the object shows, unless the filter has since overwritten it. */
  ghost predicate Faithful(st: ObjState, res: FilterResult) {
    forall k :: k in res.inputs && k !in res.outputs ==> res.inputs[k] == SigOf(st, k)
  }

  /** Every recorded output is what the object holds; every recorded omission took effect. */
  ghost predicate Recorded(st: ObjState, res: FilterResult) {
    && (forall k :: k in res.outputs ==> SigOf(st, k) == Some(res.outputs[k]))
    && res.omits <= st.omit
    && res.omits <= st.attrs.Keys
  }

  /** The input test of the attribute cache: the object shows what the record read. */
  ghost predicate Agrees(st: ObjState, res: FilterResult) {
    forall k :: k in res.inputs ==> res.inputs[k] == SigOf(st, k)
  }

  /** A record only grows while the filter runs, and never revises an input. */
  lemma {:induction false} ExecExtends(p: Program, st: ObjState, res: FilterResult)
    requires Disciplined(p, res.inputs.Keys, res.outputs.Keys)
    requires Faithful(st, res)
    requires Exec(p, st, res).ending.Finished?
    ensures var r := Exec(p, st, res).ending.result;
            && (forall k :: k in res.inputs ==> k in r.inputs && r.inputs[k] == res.inputs[k])
            && res.outputs.Keys <= r.outputs.Keys
    decreases p
  {
    match p
    case GetAttribute(key, answers) =>
      var answer := if key in st.attrs then Some(st.attrs[key]) else None;
      var inputs := res.inputs[key := SigOf(st, key)];
      assert inputs.Keys == res.inputs.Keys + {key};
      ExecExtends(answers[answer], st, res.(inputs := inputs));
    case SetAttribute(key, value, next) =>
      assert res.outputs[key := Murmur(value)].Keys == res.outputs.Keys + {key};
      ExecExtends(next, st.(attrs := st.attrs[key := value]), res.(outputs := res.outputs[key := Murmur(value)]));
    case OmitAttribute(key, ifPresent, ifAbsent) =>
      if key in st.attrs {
        ExecExtends(ifPresent, st.(omit := st.omit + {key}), res.(omits := res.omits + {key}));
      } else {
        ExecExtends(ifAbsent, st, res);
      }
    case _ =>
  }

  /** What a finished run did to the object is exactly what its record says: the recorded
      outputs and omissions, and nothing else. */
  lemma {:induction false} ExecEffect(p: Program, st: ObjState, res: FilterResult)
    requires Recorded(st, res)
    requires Exec(p, st, res).ending.Finished?
    ensures var run := Exec(p, st, res);
            var r := run.ending.result;
            && Recorded(run.state, r)
            && res.outputs.Keys <= r.outputs.Keys
            && res.omits <= r.omits
            && (forall k :: k !in r.outputs ==> SigOf(run.state, k) == SigOf(st, k))
            && run.state.omit == st.omit + r.omits
    decreases p
  {
    match p
    case GetAttribute(key, answers) =>
      var answer := if key in st.attrs then Some(st.attrs[key]) else None;
      ExecEffect(answers[answer], st, res.(inputs := res.inputs[key := SigOf(st, key)]));
    case SetAttribute(key, value, next) =>
      ExecEffect(next, st.(attrs := st.attrs[key := value]), res.(outputs := res.outputs[key := Murmur(value)]));
    case OmitAttribute(key, ifPresent, ifAbsent) =>
      if key in st.attrs {
        ExecEffect(ifPresent, st.(omit := st.omit + {key}), res.(omits := res.omits + {key}));
      } else {
        ExecEffect(ifAbsent, st, res);
      }
    case _ =>
  }

  /** The inputs a run records are those of the object it started on. */
  lemma {:induction false} ExecInputs(p: Program, start: ObjState, st: ObjState, res: FilterResult)
    requires Disciplined(p, res.inputs.Keys, res.outputs.Keys)
    requires Agrees(start, res)
    requires forall k :: k !in res.outputs ==> SigOf(st, k) == SigOf(start, k)
    requires Exec(p, st, res).ending.Finished?
    ensures Agrees(start, Exec(p, st, res).ending.result)
    decreases p
  {
    match p
    case GetAttribute(key, answers) =>
      var answer := if key in st.attrs then Some(st.attrs[key]) else None;
      var inputs := res.inputs[key := SigOf(st, key)];
      assert inputs.Keys == res.inputs.Keys + {key};
      ExecInputs(answers[answer], start, st, res.(inputs := inputs));
    case SetAttribute(key, value, next) =>
      assert res.outputs[key := Murmur(value)].Keys == res.outputs.Keys + {key};
      ExecInputs(next, start, st.(attrs := st.attrs[key := value]), res.(outputs := res.outputs[key := Murmur(value)]));
    case OmitAttribute(key, ifPresent, ifAbsent) =>
      if key in st.attrs {
        ExecInputs(ifPresent, start, st.(omit := st.omit + {key}), res.(omits := res.omits + {key}));
      } else {
        ExecInputs(ifAbsent, start, st, res);
      }
    case _ =>
  }

  /** However a run ends, the object loses no attribute. */
  lemma {:induction false} ExecKeepsKeys(p: Program, st: ObjState, res: FilterResult)
    ensures st.attrs.Keys <= Exec(p, st, res).state.attrs.Keys
    decreases p
  {
    match p
    case GetAttribute(key, answers) =>
      var answer := if key in st.attrs then Some(st.attrs[key]) else None;
      if answer in answers {
        ExecKeepsKeys(answers[answer], st, res.(inputs := res.inputs[key := SigOf(st, key)]));
      }
    case SetAttribute(key, value, next) =>
      ExecKeepsKeys(next, st.(attrs := st.attrs[key := value]), res.(outputs := res.outputs[key := Murmur(value)]));
    case OmitAttribute(key, ifPresent, ifAbsent) =>
      if key in st.attrs {
        ExecKeepsKeys(ifPresent, st.(omit := st.omit + {key}), res.(omits := res.omits + {key}));
      } else {
        ExecKeepsKeys(ifAbsent, st, res);
      }
    case _ =>
  }

  /** A run is determined by the inputs it recorded: from any object that shows the same
      signatures for them (and the same writes so far), the filter ends with the same record. */
  lemma {:induction false} ExecReplays(p: Program, st0: ObjState, st: ObjState, res: FilterResult)
    requires Disciplined(p, res.inputs.Keys, res.outputs.Keys)
    requires Faithful(st0, res) && Recorded(st0, res) && Faithful(st, res)
    requires forall k :: k in res.outputs ==> SigOf(st, k) == SigOf(st0, k)
    requires Exec(p, st0, res).ending.Finished?
    requires var r := Exec(p, st0, res).ending.result;
             forall k :: k in r.inputs && k !in res.outputs ==> r.inputs[k] == SigOf(st, k)
    ensures Exec(p, st, res).ending == Exec(p, st0, res).ending
    decreases p
  {
    match p
    case GetAttribute(key, answers) =>
      var answer := if key in st0.attrs then Some(st0.attrs[key]) else None;
      var res' := res.(inputs := res.inputs[key := SigOf(st0, key)]);
      assert res'.inputs.Keys == res.inputs.Keys + {key};
      ExecExtends(answers[answer], st0, res');
      assert key in res'.inputs;
      assert SigOf(st, key) == SigOf(st0, key);
      ExecReplays(answers[answer], st0, st, res');
    case SetAttribute(key, value, next) =>
      assert res.outputs[key := Murmur(value)].Keys == res.outputs.Keys + {key};
      ExecReplays(next, st0.(attrs := st0.attrs[key := value]), st.(attrs := st.attrs[key := value]),
                  res.(outputs := res.outputs[key := Murmur(value)]));
    case OmitAttribute(key, ifPresent, ifAbsent) =>
      assert key in res.inputs || key in res.outputs;
      assert SigOf(st, key).Some? <==> SigOf(st0, key).Some? by {
        if key !in res.outputs {
          ExecExtends(p, st0, res);
        }
      }
      if key in st0.attrs {
        ExecReplays(ifPresent, st0.(omit := st0.omit + {key}), st.(omit := st.omit + {key}),
                    res.(omits := res.omits + {key}));
      } else {
        ExecReplays(ifAbsent, st0, st, res);
      }
    case _ =>
  }

  /** Two objects with the same signatures are the same object: murmur does not collide. */
  lemma {:induction false} SameSignatures(a: ObjState, b: ObjState)
    requires forall k :: SigOf(a, k) == SigOf(b, k)
    ensures a.attrs == b.attrs
  {
    assert forall k :: k in a.attrs <==> SigOf(a, k).Some?;
    assert forall k :: k in b.attrs <==> SigOf(b, k).Some?;
    forall k | k in a.attrs ensures k in b.attrs && a.attrs[k] == b.attrs[k] {
      assert SigOf(a, k) == SigOf(b, k);
    }
  }
}
