/** An undisturbed prune, system call by system call, does what prune() does in one go. */
module BlobPrune {
  import opened Wrappers
  import opened BlobCache

  function LiveNames(d: Disk): set<Name> { set n | n in d.dir.Keys && !n.Gc() }

  function DoomedNames(d: Disk): set<Name> { set n | n in d.dir.Keys && n.Gc() }

  /** The steps of a prune that has started, with nobody else at work; the second listing is complete. */
  predicate Quiet(s: State, e: Event) {
    match e
    case PruneStat(_) => true
    case PruneAct => true
    case PruneSweep(listing) => listing == DoomedNames(s.disk)
    case PruneEnd => true
    case _ => false
  }

  ghost predicate QuietRun(s: State, es: seq<Event>)
    requires Inv(s)
    decreases |es|
  {
    es != [] ==> QuietRun(s, es[..|es| - 1]) && Quiet(Run(s, es[..|es| - 1]), es[|es| - 1])
  }

  /** Every expired name has gone, a doomed copy has made way for its expired live name, and every other
      name is as it was. */
  ghost predicate Pruned(start: Disk, d: Disk, expires: int)
    requires start.Valid()
  {
    && (forall n :: n in d.dir <==>
          && n in start.dir && start.MTime(n) >= expires
          && !(n.Gc() && Live(n) in start.dir && start.MTime(Live(n)) < expires))
    && (forall n :: n in d.dir ==> d.dir[n] == start.dir[n])
  }

  /** The second pass so far, from what the first one left. */
  ghost predicate Swept(marked: Disk, d: Disk, expires: int, listing: set<Name>)
    requires marked.Valid()
  {
    && (forall n :: n in d.dir <==> n in marked.dir && !(n.Gc() && n !in listing && marked.MTime(n) < expires))
    && (forall n :: n in d.dir ==> d.dir[n] == marked.dir[n])
  }

  ghost predicate Sweeping(start: Disk, d: Disk, expires: int, listing: set<Name>)
    requires start.Valid()
  {
    exists marked: Disk :: marked.Valid() && marked.files == start.files && Marked(start, marked, expires, {})
                           && Swept(marked, d, expires, listing)
  }

  /** How far the prune that began on the disk `start` has got. */
  ghost predicate InPrune(start: Disk, s: State, expires: int)
    requires start.Valid()
  {
    && s.disk.Valid() && s.disk.files == start.files
    && match s.pruner
       case Mark(e, todo) => e == expires && todo <= LiveNames(start) && Marked(start, s.disk, e, todo)
       case MarkRename(e, todo, name) =>
         && e == expires && todo <= LiveNames(start) && name in LiveNames(start) && name !in todo
         && Marked(start, s.disk, e, todo + {name}) && start.MTime(name) < e
       case Sweep(e, todo) => e == expires && Sweeping(start, s.disk, e, todo) && forall n :: n in todo ==> n.Gc()
       case SweepUnlink(e, todo, name) =>
         && e == expires && Sweeping(start, s.disk, e, todo + {name}) && name !in todo && name.Gc()
         && name in s.disk.dir && s.disk.MTime(name) < e && forall n :: n in todo ==> n.Gc()
       case Resting => Pruned(start, s.disk, expires)
  }

  lemma {:induction false} StatKeepsPrune(start: Disk, s: State, expires: int, n: Name)
    requires start.Valid() && InPrune(start, s, expires)
    ensures InPrune(start, Step(s, PruneStat(n)), expires)
  {
    var p := s.pruner;
    if p.Mark? && n in p.todo {
      assert p.todo - {n} + {n} == p.todo;
      assert n in s.disk.dir && s.disk.dir[n] == start.dir[n];
      MarkedLess(start, s.disk, expires, p.todo, n);
    } else if p.Sweep? && n in p.todo {
      assert p.todo - {n} + {n} == p.todo;
      if !(n in s.disk.dir && s.disk.MTime(n) < expires) {
        SweptLess(start, s.disk, expires, p.todo, n);
      }
    }
  }

  /** A name that is not expired needs no further attention. */
  lemma {:induction false} MarkedLess(start: Disk, d: Disk, expires: int, todo: set<Name>, n: Name)
    requires start.Valid() && Marked(start, d, expires, todo) && n in todo && todo <= LiveNames(start)
    ensures start.MTime(n) >= expires ==> Marked(start, d, expires, todo - {n})
  {
    if start.MTime(n) >= expires {
      assert forall m: Name :: m in todo - {n} <==> m in todo && m != n;
      assert !Expired(start, n, expires);
    }
  }

  lemma {:induction false} SweptLess(start: Disk, d: Disk, expires: int, todo: set<Name>, n: Name)
    requires start.Valid() && d.Valid() && d.files == start.files && Sweeping(start, d, expires, todo) && n in todo
    requires !(n in d.dir && d.MTime(n) < expires)
    ensures Sweeping(start, d, expires, todo - {n})
  {
    var marked: Disk :| marked.Valid() && marked.files == start.files && Marked(start, marked, expires, {})
      && Swept(marked, d, expires, todo);
    assert Swept(marked, d, expires, todo - {n});
  }

  lemma {:induction false} RenameKeepsPrune(start: Disk, s: State, expires: int)
    requires start.Valid() && InPrune(start, s, expires) && s.pruner.MarkRename?
    ensures InPrune(start, Act(s), expires)
  {
    var name, todo := s.pruner.name, s.pruner.todo;
    assert name in s.disk.dir && Expired(start, name, expires);
    var d := Rename(s.disk, name, name.WithSuffix()).value;
    assert Live(name.WithSuffix()) == name;
    Renamed(start, s.disk, d, expires, todo, name);
  }

  lemma {:induction false} Renamed(start: Disk, d: Disk, d': Disk, expires: int, todo: set<Name>, name: Name)
    requires start.Valid() && d.Valid() && Marked(start, d, expires, todo + {name}) && name !in todo && !name.Gc()
    requires name in start.dir && start.MTime(name) < expires && name in d.dir
    requires d'.dir == (d.dir - {name})[name.WithSuffix() := d.dir[name]]
    ensures Marked(start, d', expires, todo)
  {
    forall n: Name ensures n.Gc() && Live(n) == name <==> n == name.WithSuffix() {
    }
    forall n: Name ensures n in todo + {name} <==> n in todo || n == name {
    }
  }

  lemma {:induction false} UnlinkKeepsPrune(start: Disk, s: State, expires: int)
    requires start.Valid() && InPrune(start, s, expires) && s.pruner.SweepUnlink?
    ensures InPrune(start, Act(s), expires)
  {
    var name, todo := s.pruner.name, s.pruner.todo;
    var d := Unlink(s.disk, name);
    var marked: Disk :| marked.Valid() && marked.files == start.files && Marked(start, marked, expires, {})
      && Swept(marked, s.disk, expires, todo + {name});
    assert Swept(marked, d, expires, todo);
  }

  lemma {:induction false} SecondListing(start: Disk, s: State, expires: int)
    requires start.Valid() && InPrune(start, s, expires) && s.pruner.Mark? && s.pruner.todo == {}
    ensures Sweeping(start, s.disk, expires, DoomedNames(s.disk))
  {
    assert Swept(s.disk, s.disk, expires, DoomedNames(s.disk));
  }

  lemma {:induction false} AllSwept(start: Disk, s: State, expires: int)
    requires start.Valid() && InPrune(start, s, expires) && s.pruner.Sweep? && s.pruner.todo == {}
    ensures Pruned(start, s.disk, expires)
  {
    var marked: Disk :| marked.Valid() && marked.files == start.files && Marked(start, marked, expires, {})
      && Swept(marked, s.disk, expires, {});
    forall n ensures n in s.disk.dir <==>
      && n in start.dir && start.MTime(n) >= expires && !(n.Gc() && Live(n) in start.dir && start.MTime(Live(n)) < expires)
    {
      MarkedThenSwept(start, marked, n, expires);
    }
  }

  lemma {:induction false} QuietStepKeepsPrune(start: Disk, s: State, expires: int, e: Event)
    requires start.Valid() && InPrune(start, s, expires) && Quiet(s, e)
    ensures InPrune(start, Step(s, e), expires)
  {
    match e
    case PruneStat(n) => StatKeepsPrune(start, s, expires, n);
    case PruneAct =>
      if s.pruner.MarkRename? {
        RenameKeepsPrune(start, s, expires);
      } else if s.pruner.SweepUnlink? {
        UnlinkKeepsPrune(start, s, expires);
      }
    case PruneSweep(listing) =>
      if s.pruner.Mark? && s.pruner.todo == {} {
        SecondListing(start, s, expires);
      }
    case PruneEnd =>
      if s.pruner.Sweep? && s.pruner.todo == {} {
        AllSwept(start, s, expires);
      }
  }

  lemma {:induction false} FirstListing(s: State, maxAge: nat)
    requires Inv(s) && s.pruner.Resting?
    ensures InPrune(s.disk, Step(s, PruneStart(maxAge, LiveNames(s.disk))), s.disk.clock - maxAge)
  {
  }

  /** Whatever the order in which the names are looked at: when an undisturbed prune ends, exactly the
      expired names have left the directory. */
  lemma {:induction false} QuietPrune(s: State, maxAge: nat, es: seq<Event>)
    requires Inv(s) && s.pruner.Resting?
    requires var s0 := Step(s, PruneStart(maxAge, LiveNames(s.disk))); Inv(s0) && QuietRun(s0, es)
    ensures var r := Run(Step(s, PruneStart(maxAge, LiveNames(s.disk))), es);
            && InPrune(s.disk, r, s.disk.clock - maxAge)
            && (r.pruner.Resting? ==> Pruned(s.disk, r.disk, s.disk.clock - maxAge))
    decreases |es|
  {
    FirstListing(s, maxAge);
    if es != [] {
      var n, s0 := |es| - 1, Step(s, PruneStart(maxAge, LiveNames(s.disk)));
      QuietPrune(s, maxAge, es[..n]);
      QuietStepKeepsPrune(s.disk, Run(s0, es[..n]), s.disk.clock - maxAge, es[n]);
    }
  }
}
