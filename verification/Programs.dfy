/** Filters put together from a few commands, for showing what some filter can do. */
module Programs {
  import opened Wrappers
  import opened Objects
  import opened Filters
  import opened PlainLoop

  function KeysIn(keys: seq<Key>): set<Key> {
    set k | k in keys
  }

  /** A set of keys in some order. */
  ghost function Listing(keys: set<Key>): (s: seq<Key>)
    ensures KeysIn(s) == keys
    decreases keys
  {
    if keys == {} then []
    else
      var k :| k in keys;
      assert keys == {k} + (keys - {k});
      [k] + Listing(keys - {k})
  }

  // ---------------------------------------------------------------- omitting

  ghost function Omits(keys: seq<Key>, next: Program): Program {
    if keys == [] then next else OmitAttribute(keys[0], Omits(keys[1..], next), Omits(keys[1..], next))
  }

  lemma {:induction false} ExecOmits(keys: seq<Key>, next: Program, st: ObjState, res: FilterResult)
    ensures var gone := KeysIn(keys) * st.attrs.Keys;
            Exec(Omits(keys, next), st, res) == Exec(next, st.(omit := st.omit + gone), res.(omits := res.omits + gone))
    decreases |keys|
  {
    var gone := KeysIn(keys) * st.attrs.Keys;
    if keys == [] {
      assert st.omit + gone == st.omit && res.omits + gone == res.omits;
    } else {
      var rest := KeysIn(keys[1..]) * st.attrs.Keys;
      assert KeysIn(keys) == {keys[0]} + KeysIn(keys[1..]);
      if keys[0] in st.attrs {
        ExecOmits(keys[1..], next, st.(omit := st.omit + {keys[0]}), res.(omits := res.omits + {keys[0]}));
        assert st.omit + {keys[0]} + rest == st.omit + gone && res.omits + {keys[0]} + rest == res.omits + gone;
      } else {
        ExecOmits(keys[1..], next, st, res);
        assert rest == gone;
      }
    }
  }

  lemma {:induction false} OmitsWritesNothing(keys: seq<Key>, score: real, k: Key)
    ensures !MayWrite(Omits(keys, Report(score)), k)
    decreases |keys|
  {
    if keys != [] {
      OmitsWritesNothing(keys[1..], score, k);
    }
  }

  lemma {:induction false} OmitsDisciplined(keys: seq<Key>, score: real, read: set<Key>, written: set<Key>)
    requires KeysIn(keys) <= read + written
    ensures Disciplined(Omits(keys, Report(score)), read, written)
    decreases |keys|
  {
    if keys != [] {
      assert keys[0] in KeysIn(keys) && KeysIn(keys[1..]) <= KeysIn(keys);
      OmitsDisciplined(keys[1..], score, read, written);
    }
  }

  // ---------------------------------------------------------------- writing

  ghost function Puts(keys: seq<Key>, values: map<Key, Value>, next: Program): Program
    requires KeysIn(keys) <= values.Keys
  {
    if keys == [] then next
    else
      assert keys[0] in KeysIn(keys) && KeysIn(keys[1..]) <= KeysIn(keys);
      SetAttribute(keys[0], values[keys[0]], Puts(keys[1..], values, next))
  }

  function Only(values: map<Key, Value>, keys: set<Key>): map<Key, Value>
    requires keys <= values.Keys
  {
    map k | k in keys :: values[k]
  }

  function Sigs(values: map<Key, Value>): map<Key, Digest> {
    map k | k in values :: Murmur(values[k])
  }

  lemma {:induction false} ExecPuts(keys: seq<Key>, values: map<Key, Value>, next: Program, st: ObjState, res: FilterResult)
    requires KeysIn(keys) <= values.Keys
    ensures var put := Only(values, KeysIn(keys));
            Exec(Puts(keys, values, next), st, res)
            == Exec(next, st.(attrs := st.attrs + put), res.(outputs := res.outputs + Sigs(put)))
    decreases |keys|
  {
    var put := Only(values, KeysIn(keys));
    if keys == [] {
      assert st.attrs + put == st.attrs && res.outputs + Sigs(put) == res.outputs;
    } else {
      var k, v := keys[0], values[keys[0]];
      assert k in KeysIn(keys) && KeysIn(keys) == {k} + KeysIn(keys[1..]);
      ExecPuts(keys[1..], values, next, st.(attrs := st.attrs[k := v]), res.(outputs := res.outputs[k := Murmur(v)]));
      PutFirst(st.attrs, res.outputs, values, k, KeysIn(keys[1..]));
    }
  }

  lemma {:induction false} PutFirst(attrs: map<Key, Value>, outputs: map<Key, Digest>, values: map<Key, Value>, k: Key, rest: set<Key>)
    requires k in values && rest <= values.Keys
    ensures attrs[k := values[k]] + Only(values, rest) == attrs + Only(values, {k} + rest)
    ensures outputs[k := Murmur(values[k])] + Sigs(Only(values, rest)) == outputs + Sigs(Only(values, {k} + rest))
  {
  }

  lemma {:induction false} PutsWrites(keys: seq<Key>, values: map<Key, Value>, next: Program, k: Key)
    requires KeysIn(keys) <= values.Keys
    ensures MayWrite(Puts(keys, values, next), k) <==> k in KeysIn(keys) || MayWrite(next, k)
    decreases |keys|
  {
    if keys != [] {
      assert KeysIn(keys) == {keys[0]} + KeysIn(keys[1..]);
      PutsWrites(keys[1..], values, next, k);
    }
  }

  lemma {:induction false} PutsDisciplined(keys: seq<Key>, values: map<Key, Value>, next: Program, read: set<Key>, written: set<Key>)
    requires KeysIn(keys) <= values.Keys && Disciplined(next, read, written + KeysIn(keys))
    ensures Disciplined(Puts(keys, values, next), read, written)
    decreases |keys|
  {
    if keys == [] {
      assert written + KeysIn(keys) == written;
    } else {
      assert KeysIn(keys) == {keys[0]} + KeysIn(keys[1..]);
      assert written + {keys[0]} + KeysIn(keys[1..]) == written + KeysIn(keys);
      PutsDisciplined(keys[1..], values, next, read, written + {keys[0]});
    }
  }

  // ---------------------------------------------------------------- reading

  function SigOfAnswer(answer: Option<Value>): Option<Digest> {
    match answer
    case None => None
    case Some(value) => Some(Murmur(value))
  }

  /** Read the keys as long as they show what is expected, then go on with `good`, else with `bad`. */
  ghost function Check(keys: seq<Key>, expected: map<Key, Option<Digest>>, good: Program, bad: Program): Program
    requires KeysIn(keys) <= expected.Keys
    decreases |keys|
  {
    if keys == [] then good
    else
      assert keys[0] in KeysIn(keys) && KeysIn(keys[1..]) <= KeysIn(keys);
      var next := Check(keys[1..], expected, good, bad);
      GetAttribute(keys[0], imap a: Option<Value> | true :: if SigOfAnswer(a) == expected[keys[0]] then next else bad)
  }

  function Readings(st: ObjState, keys: set<Key>): map<Key, Option<Digest>> {
    map k | k in keys :: SigOf(st, k)
  }

  predicate Shows(st: ObjState, keys: set<Key>, expected: map<Key, Option<Digest>>)
    requires keys <= expected.Keys
  {
    forall k :: k in keys ==> SigOf(st, k) == expected[k]
  }

  lemma {:induction false} ExecCheckGood(keys: seq<Key>, expected: map<Key, Option<Digest>>, good: Program, bad: Program, st: ObjState, res: FilterResult)
    requires KeysIn(keys) <= expected.Keys && Shows(st, KeysIn(keys), expected)
    ensures Exec(Check(keys, expected, good, bad), st, res)
         == Exec(good, st, res.(inputs := res.inputs + Readings(st, KeysIn(keys))))
    decreases |keys|
  {
    if keys == [] {
      assert res.inputs + Readings(st, KeysIn(keys)) == res.inputs;
    } else {
      var k := keys[0];
      assert k in KeysIn(keys) && KeysIn(keys) == {k} + KeysIn(keys[1..]);
      var inputs := res.inputs[k := SigOf(st, k)];
      ExecCheckGood(keys[1..], expected, good, bad, st, res.(inputs := inputs));
      ReadFirst(st, res.inputs, k, KeysIn(keys[1..]));
      CheckOnce(keys, expected, good, bad, st, res);
    }
  }

  lemma {:induction false} ReadFirst(st: ObjState, inputs: map<Key, Option<Digest>>, k: Key, rest: set<Key>)
    ensures inputs[k := SigOf(st, k)] + Readings(st, rest) == inputs + Readings(st, {k} + rest)
  {
  }

  /** The first reading. */
  lemma {:induction false} CheckOnce(keys: seq<Key>, expected: map<Key, Option<Digest>>, good: Program, bad: Program, st: ObjState, res: FilterResult)
    requires keys != [] && KeysIn(keys) <= expected.Keys && keys[0] in KeysIn(keys) && KeysIn(keys[1..]) <= expected.Keys
    ensures var next := if SigOf(st, keys[0]) == expected[keys[0]] then Check(keys[1..], expected, good, bad) else bad;
            Exec(Check(keys, expected, good, bad), st, res)
            == Exec(next, st, res.(inputs := res.inputs[keys[0] := SigOf(st, keys[0])]))
  {
    var answer := if keys[0] in st.attrs then Some(st.attrs[keys[0]]) else None;
    assert SigOfAnswer(answer) == SigOf(st, keys[0]);
  }

  lemma {:induction false} ExecCheckBad(keys: seq<Key>, expected: map<Key, Option<Digest>>, good: Program, bad: Program, st: ObjState, res: FilterResult)
    returns (inputs: map<Key, Option<Digest>>)
    requires KeysIn(keys) <= expected.Keys && !Shows(st, KeysIn(keys), expected)
    ensures Exec(Check(keys, expected, good, bad), st, res) == Exec(bad, st, res.(inputs := inputs))
    decreases |keys|
  {
    var k := keys[0];
    assert k in KeysIn(keys) && KeysIn(keys) == {k} + KeysIn(keys[1..]);
    inputs := res.inputs[k := SigOf(st, k)];
    CheckOnce(keys, expected, good, bad, st, res);
    if SigOf(st, k) == expected[k] {
      inputs := ExecCheckBad(keys[1..], expected, good, bad, st, res.(inputs := inputs));
    }
  }

  lemma {:induction false} CheckWrites(keys: seq<Key>, expected: map<Key, Option<Digest>>, good: Program, bad: Program, k: Key)
    requires KeysIn(keys) <= expected.Keys && MayWrite(Check(keys, expected, good, bad), k)
    ensures MayWrite(good, k) || MayWrite(bad, k)
    decreases |keys|
  {
    if keys != [] && !MayWrite(bad, k) {
      CheckWrites(keys[1..], expected, good, bad, k);
    }
  }

  lemma {:induction false} CheckDisciplined(keys: seq<Key>, expected: map<Key, Option<Digest>>, good: Program, bad: Program, read: set<Key>)
    requires KeysIn(keys) <= expected.Keys
    requires Disciplined(good, read + KeysIn(keys), {})
    requires forall more :: Disciplined(bad, more, {})
    ensures Disciplined(Check(keys, expected, good, bad), read, {})
    decreases |keys|
  {
    if keys == [] {
      assert read + KeysIn(keys) == read;
    } else {
      assert KeysIn(keys) == {keys[0]} + KeysIn(keys[1..]);
      assert read + {keys[0]} + KeysIn(keys[1..]) == read + KeysIn(keys);
      CheckDisciplined(keys[1..], expected, good, bad, read + {keys[0]});
    }
  }
}
