/** Ordering the filters of a search by their declared dependencies. */
module FilterStacks {
  import opened Wrappers
  import opened Sequences
  import opened PlainLoop

  datatype DependencyError = Circular(filter: nat) | NoSuchFilter(name: string)

  /** self._filters: a name stands for the last filter that bears it. */
  function LastNamed(filters: seq<Filter>, name: string): Option<nat> {
    if filters == [] then None
    else if filters[|filters| - 1].name == name then Some(|filters| - 1)
    else LastNamed(filters[..|filters| - 1], name)
  }

  lemma {:induction false} LastNamedIsIndex(filters: seq<Filter>, name: string)
    ensures match LastNamed(filters, name)
            case Some(i) => i < |filters| && filters[i].name == name
                            && forall j :: i < j < |filters| ==> filters[j].name != name
            case None => forall j :: 0 <= j < |filters| ==> filters[j].name != name
  {
    if filters != [] {
      LastNamedIsIndex(filters[..|filters| - 1], name);
    }
  }

  /** Filter x declares a dependency that stands for filter y. */
  predicate Edge(filters: seq<Filter>, x: nat, y: nat) {
    && x < |filters|
    && exists n :: 0 <= n < |filters[x].dependencies| && LastNamed(filters, filters[x].dependencies[n]) == Some(y)
  }

  ghost predicate Chain(filters: seq<Filter>, path: seq<nat>) {
    forall i :: 0 <= i < |path| - 1 ==> Edge(filters, path[i], path[i + 1])
  }

  ghost predicate Cycle(filters: seq<Filter>, path: seq<nat>) {
    |path| > 1 && Chain(filters, path) && path[0] == path[|path| - 1]
  }

  ghost predicate Acyclic(filters: seq<Filter>) {
    forall path :: !Cycle(filters, path)
  }

  predicate Missing(filters: seq<Filter>, x: nat, n: nat) {
    && x < |filters| && n < |filters[x].dependencies|
    && LastNamed(filters, filters[x].dependencies[n]).None?
  }

  ghost predicate DependenciesExist(filters: seq<Filter>) {
    forall x, n :: !Missing(filters, x, n)
  }

  /** Each element occurs once, with everything it depends on before it. */
  ghost predicate DependencyOrder(filters: seq<Filter>, order: seq<nat>) {
    && (forall i :: 0 <= i < |order| ==> order[i] < |filters|)
    && (forall i, j :: 0 <= i < j < |order| ==> order[i] != order[j])
    && (forall i, y :: 0 <= i < |order| && Edge(filters, order[i], y) ==> y in order[..i])
  }

  /** ... and nothing is left out. */
  ghost predicate CompleteOrder(filters: seq<Filter>, order: seq<nat>) {
    DependencyOrder(filters, order) && forall x: nat :: x < |filters| ==> x in order
  }

  /** An order with dependencies first rules out every cycle: along a chain the position
      in the order strictly falls. */
  lemma {:induction false} PositionFalls(filters: seq<Filter>, order: seq<nat>, path: seq<nat>, i: nat, j: nat) returns (q: nat)
    requires DependencyOrder(filters, order) && Chain(filters, path)
    requires i < |order| && |path| > 0 && path[0] == order[i]
    requires j < |path|
    ensures q <= i && order[q] == path[j] && (j > 0 ==> q < i)
    decreases j
  {
    if j == 0 {
      q := i;
    } else {
      var p := PositionFalls(filters, order, path, i, j - 1);
      assert Edge(filters, path[j - 1], path[j - 1 + 1]);
      assert path[j] in order[..p];
      q :| 0 <= q < p && order[q] == path[j];
    }
  }

  lemma {:induction false} CompleteOrderIsAcyclic(filters: seq<Filter>, order: seq<nat>)
    requires CompleteOrder(filters, order)
    ensures Acyclic(filters)
  {
    forall path ensures !Cycle(filters, path) {
      if Cycle(filters, path) {
        assert Edge(filters, path[0], path[0 + 1]);
        assert path[0] in order;
        var i :| 0 <= i < |order| && order[i] == path[0];
        var q := PositionFalls(filters, order, path, i, |path| - 1);
      }
    }
  }

  lemma {:induction false} AppendToOrder(filters: seq<Filter>, order: seq<nat>, x: nat)
    requires DependencyOrder(filters, order) && x < |filters| && x !in order
    requires forall y :: Edge(filters, x, y) ==> y in order
    ensures DependencyOrder(filters, order + [x])
  {
    var order' := order + [x];
    forall i, y | 0 <= i < |order'| && Edge(filters, order'[i], y) ensures y in order'[..i] {
      assert order'[..i] == order[..i];
    }
  }

  class StackBuilder {
    const filters: seq<Filter>
    var order: seq<nat>
    var resolved: set<nat>
    var inprocess: set<nat>

    ghost predicate Valid()
      reads this
    {
      && DependencyOrder(filters, order)
      && (forall x :: x in resolved <==> x in order)
      && (forall x, n :: x in resolved ==> !Missing(filters, x, n))
      && (forall x :: x in inprocess ==> x < |filters| && x !in resolved)
    }

    constructor (filters: seq<Filter>)
      ensures Valid() && this.filters == filters && order == [] && inprocess == {}
    {
      this.filters := filters;
      order, resolved, inprocess := [], {}, {};
    }

    /** resolve(): append the filter to the order after everything it depends on.  `path` is
        the chain of calls in progress, ending in this filter. */
    method Resolve(x: nat, ghost path: seq<nat>) returns (err: Option<DependencyError>)
      requires Valid() && x < |filters|
      requires |path| > 0 && path[|path| - 1] == x && Chain(filters, path)
      requires forall y :: y in inprocess <==> y in path[..|path| - 1]
      modifies this
      ensures err.None? ==> Valid() && inprocess == old(inprocess) && x in resolved && old(resolved) <= resolved
      ensures err.Some? && err.value.Circular? ==> !Acyclic(filters)
      ensures err.Some? && err.value.NoSuchFilter? ==> exists y, n :: Missing(filters, y, n)
      decreases Below(|filters|) - inprocess
    {
      if x in resolved {
        return None;
      }
      if x in inprocess {
        ghost var m :| 0 <= m < |path| - 1 && path[m] == x;
        assert Cycle(filters, path[m..]) by {
          forall i | 0 <= i < |path[m..]| - 1 ensures Edge(filters, path[m..][i], path[m..][i + 1]) {
            assert Edge(filters, path[m + i], path[m + i + 1]);
          }
        }
        return Some(Circular(x));
      }
      ghost var inprocess0 := inprocess;
      inprocess := inprocess + {x};
      for n := 0 to |filters[x].dependencies|
        invariant Valid() && inprocess == inprocess0 + {x} && old(resolved) <= resolved
        invariant forall m :: 0 <= m < n ==>
          !Missing(filters, x, m) && LastNamed(filters, filters[x].dependencies[m]).value in resolved
      {
        var dep := LastNamed(filters, filters[x].dependencies[n]);
        if dep.None? {
          assert Missing(filters, x, n);
          return Some(NoSuchFilter(filters[x].dependencies[n]));
        }
        LastNamedIsIndex(filters, filters[x].dependencies[n]);
        ghost var path' := path + [dep.value];
        assert Chain(filters, path') && path'[..|path'| - 1] == path by {
          assert Edge(filters, x, dep.value);
          forall i | 0 <= i < |path'| - 1 ensures Edge(filters, path'[i], path'[i + 1]) {
            assert i < |path| - 1 ==> Edge(filters, path[i], path[i + 1]);
          }
        }
        err := Resolve(dep.value, path');
        if err.Some? {
          return err;
        }
      }
      inprocess := inprocess - {x};
      AppendToOrder(filters, order, x);
      order := order + [x];
      resolved := resolved + {x};
      return None;
    }
  }

  /** FilterStack(): construction succeeds exactly when every named dependency exists and the
      dependency graph has no cycle, and then orders all filters, dependencies first. */
  method BuildOrder(filters: seq<Filter>) returns (r: Result<seq<nat>, DependencyError>)
    ensures r.Ok? <==> DependenciesExist(filters) && Acyclic(filters)
    ensures r.Ok? ==> CompleteOrder(filters, r.value)
    ensures r.Err? && r.error.Circular? ==> !Acyclic(filters)
    ensures r.Err? && r.error.NoSuchFilter? ==> !DependenciesExist(filters)
  {
    var builder := new StackBuilder(filters);
    for x := 0 to |filters|
      invariant fresh(builder) && builder.filters == filters && builder.Valid() && builder.inprocess == {}
      invariant forall y: nat :: y < x ==> y in builder.resolved
    {
      var err := builder.Resolve(x, [x]);
      if err.Some? {
        return Err(err.value);
      }
    }
    CompleteOrderIsAcyclic(filters, builder.order);
    forall x: nat, n: nat ensures !Missing(filters, x, n) {
      assert x < |filters| ==> x in builder.resolved;
    }
    return Ok(builder.order);
  }
}
