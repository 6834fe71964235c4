/** Session variables: the server's three-part counters, and a client that merges them across
    servers.  Reals stand for the source's floats. */
module SessionVars {
  import opened Wrappers

  /** The value of a _SessionVariable. */
  datatype Cell = Cell(globalVal: real, localVal: real, between: real)

  type Cells = map<string, Cell>

  const NEW_CELL := Cell(0.0, 0.0, 0.0)

  function CellOf(vars: Cells, k: string): Cell {
    if k in vars then vars[k] else NEW_CELL
  }

  /** What a filter reads. */
  function Reading(c: Cell): real {
    c.globalVal + c.localVal + c.between
  }

  function Updated(c: Cell, value: real, flag: bool): Cell {
    if flag then c.(between := c.between + value) else c.(localVal := c.localVal + value)
  }

  function UpdateAll(vars: Cells, values: map<string, real>, flag: bool): Cells {
    map k | k in vars.Keys + values.Keys ::
      if k in values then Updated(CellOf(vars, k), values[k], flag) else vars[k]
  }

  function SetAll(vars: Cells, values: map<string, real>): Cells {
    map k | k in vars.Keys + values.Keys ::
      if k in values then Cell(values[k], CellOf(vars, k).between, 0.0) else vars[k]
  }

  function Locals(vars: Cells): map<string, real> {
    map k | k in vars :: vars[k].localVal
  }

  /** What an update adds goes to the local part, or between a get and a set to the part between. */
  predicate Gains(before: Cell, after: Cell, value: real, betweenGetAndSet: bool) {
    && after.globalVal == before.globalVal
    && after.localVal == before.localVal + (if betweenGetAndSet then 0.0 else value)
    && after.between == before.between + (if betweenGetAndSet then value else 0.0)
  }

  /** Every variable gains its value, and only those that get one change. */
  lemma {:induction false} UpdateGains(vars: Cells, values: map<string, real>, flag: bool)
    ensures UpdateAll(vars, values, flag).Keys == vars.Keys + values.Keys
    ensures forall k :: Gains(CellOf(vars, k), CellOf(UpdateAll(vars, values, flag), k), if k in values then values[k] else 0.0, flag)
  {
  }

  /** A filter reads its own updates at once, whether or not a round is under way. */
  lemma {:induction false} ReadsOwnUpdates(vars: Cells, values: map<string, real>, flag: bool, k: string)
    ensures Reading(CellOf(UpdateAll(vars, values, flag), k)) == Reading(CellOf(vars, k)) + if k in values then values[k] else 0.0
  {
  }

  lemma {:induction false} UpdateOneMore(vars: Cells, done: map<string, real>, k: string, value: real, flag: bool)
    requires k !in done
    ensures var sofar := UpdateAll(vars, done, flag);
            UpdateAll(vars, done[k := value], flag) == sofar[k := Updated(CellOf(sofar, k), value, flag)]
  {
  }

  lemma {:induction false} SetOneMore(vars: Cells, done: map<string, real>, k: string, value: real)
    requires k !in done
    ensures var sofar := SetAll(vars, done);
            SetAll(vars, done[k := value]) == sofar[k := Cell(value, CellOf(sofar, k).between, 0.0)]
  {
  }

  // ---------------------------------------------------------------- the server's objects

  class SessionVariable {
    var globalVal: real
    var localVal: real
    var between: real

    function Value(): Cell
      reads this
    {
      Cell(globalVal, localVal, between)
    }

    constructor ()
      ensures Value() == NEW_CELL
    {
      globalVal, localVal, between := 0.0, 0.0, 0.0;
    }

    method FilterUpdate(value: real, betweenGetAndSet: bool)
      modifies this
      ensures Value() == Updated(old(Value()), value, betweenGetAndSet)
    {
      if betweenGetAndSet {
        between := between + value;
      } else {
        localVal := localVal + value;
      }
    }

    method ClientSet(value: real)
      modifies this
      ensures Value() == Cell(value, old(between), 0.0)
    {
      globalVal := value;
      localVal := between;
      between := 0.0;
    }
  }

  class SessionVariables {
    var vars: map<string, SessionVariable>
    var betweenGetAndSet: bool

    ghost predicate Valid()
      reads this
    {
      forall k, j :: k in vars && j in vars && vars[k] == vars[j] ==> k == j
    }

    ghost function Values(): Cells
      reads this, vars.Values
    {
      map k | k in vars :: vars[k].Value()
    }

    constructor ()
      ensures Valid() && Values() == map[] && !betweenGetAndSet
    {
      vars, betweenGetAndSet := map[], false;
    }

    method FilterGet(keys: seq<string>) returns (ret: map<string, real>)
      ensures forall k :: k in ret <==> k in keys
      ensures forall k :: k in ret ==> ret[k] == Reading(CellOf(Values(), k))
      ensures forall k :: k in ret ==> var c := CellOf(Values(), k); ret[k] == c.globalVal + c.localVal + c.between
    {
      ret := map[];
      for n := 0 to |keys|
        invariant forall k :: k in ret <==> k in keys[..n]
        invariant forall k :: k in ret ==> ret[k] == Reading(CellOf(Values(), k))
      {
        var key := keys[n];
        if key in vars {
          ret := ret[key := vars[key].globalVal + vars[key].localVal + vars[key].between];
        } else {
          ret := ret[key := 0.0];
        }
      }
    }

    /** self._vars.setdefault(key, _SessionVariable()) */
    method SetDefault(key: string) returns (v: SessionVariable)
      requires Valid()
      modifies this`vars
      ensures Valid() && key in vars && vars[key] == v
      ensures key in old(vars) ==> vars == old(vars)
      ensures key !in old(vars) ==> fresh(v) && vars == old(vars)[key := v] && v.Value() == NEW_CELL
    {
      if key !in vars {
        var created := new SessionVariable();
        vars := vars[key := created];
      }
      v := vars[key];
    }

    method UpdateOne(key: string, value: real)
      requires Valid()
      modifies this`vars, vars.Values
      ensures Valid() && fresh(vars.Values - old(vars.Values))
      ensures Values() == old(Values())[key := Updated(CellOf(old(Values()), key), value, betweenGetAndSet)]
    {
      var v := SetDefault(key);
      v.FilterUpdate(value, betweenGetAndSet);
    }

    method SetOne(key: string, value: real)
      requires Valid()
      modifies this`vars, vars.Values
      ensures Valid() && fresh(vars.Values - old(vars.Values))
      ensures Values() == old(Values())[key := Cell(value, CellOf(old(Values()), key).between, 0.0)]
    {
      var v := SetDefault(key);
      v.ClientSet(value);
    }

    method FilterUpdate(values: map<string, real>)
      requires Valid()
      modifies this`vars, vars.Values
      ensures Valid() && fresh(vars.Values - old(vars.Values))
      ensures Values() == UpdateAll(old(Values()), values, betweenGetAndSet)
      ensures Values().Keys == old(Values()).Keys + values.Keys
      ensures forall k :: Gains(CellOf(old(Values()), k), CellOf(Values(), k),
                                if k in values then values[k] else 0.0, betweenGetAndSet)
    {
      ghost var start := Values();
      var todo := values.Keys;
      ghost var done: map<string, real> := map[];
      while todo != {}
        invariant Valid() && todo <= values.Keys && fresh(vars.Values - old(vars.Values))
        invariant done.Keys == values.Keys - todo && forall k :: k in done ==> done[k] == values[k]
        invariant Values() == UpdateAll(start, done, betweenGetAndSet)
        decreases todo
      {
        var key :| key in todo;
        UpdateOne(key, values[key]);
        UpdateOneMore(start, done, key, values[key], betweenGetAndSet);
        done := done[key := values[key]];
        todo := todo - {key};
      }
      assert done == values;
      UpdateGains(start, values, betweenGetAndSet);
    }

    method ClientGet() returns (ret: map<string, real>)
      modifies this`betweenGetAndSet
      ensures betweenGetAndSet
      ensures ret == Locals(Values())
      ensures ret.Keys == vars.Keys && forall k :: k in vars ==> ret[k] == vars[k].localVal
    {
      betweenGetAndSet := true;
      ret := map[];
      var todo := vars.Keys;
      while todo != {}
        invariant betweenGetAndSet && todo <= vars.Keys
        invariant ret.Keys == vars.Keys - todo
        invariant forall k :: k in ret ==> ret[k] == vars[k].localVal
        decreases todo
      {
        var key :| key in todo;
        ret := ret[key := vars[key].localVal];
        todo := todo - {key};
      }
    }

    method ClientSet(values: map<string, real>)
      requires Valid()
      modifies this, vars.Values
      ensures Valid() && fresh(vars.Values - old(vars.Values))
      ensures !betweenGetAndSet
      ensures Values() == SetAll(old(Values()), values)
      ensures Values().Keys == old(Values()).Keys + values.Keys
      ensures forall k :: k in values ==> CellOf(Values(), k) == Cell(values[k], CellOf(old(Values()), k).between, 0.0)
      ensures forall k :: k !in values ==> CellOf(Values(), k) == CellOf(old(Values()), k)
    {
      ghost var start := Values();
      betweenGetAndSet := false;
      var todo := values.Keys;
      ghost var done: map<string, real> := map[];
      while todo != {}
        invariant !betweenGetAndSet
        invariant Valid() && todo <= values.Keys && fresh(vars.Values - old(vars.Values))
        invariant done.Keys == values.Keys - todo && forall k :: k in done ==> done[k] == values[k]
        invariant Values() == SetAll(start, done)
        decreases todo
      {
        var key :| key in todo;
        SetOne(key, values[key]);
        SetOneMore(start, done, key, values[key]);
        done := done[key := values[key]];
        todo := todo - {key};
      }
      assert done == values;
    }
  }
}
