/** When the second open() of a blob can fail: exactly when a rescue is under way while the
    blob goes by both of its names. */
module BlobRaces {
  import opened Wrappers
  import opened Sequences
  import opened BlobCache

  // ---------------------------------------------------------------- admissible paths

  /** es is admissible for readers of sig and leads from s to t. */
  ghost predicate Path(s: State, es: seq<Event>, t: State, sig: Sig) {
    Inv(s) && AdmissibleRun(s, es, sig) && Run(s, es) == t
  }

  lemma {:induction false} PathStep(s: State, es: seq<Event>, t: State, e: Event, sig: Sig)
    requires Path(s, es, t, sig) && Admissible(t, e, sig)
    ensures Path(s, es + [e], Step(t, e), sig) && Inv(Step(t, e))
  {
    assert (es + [e])[..|es|] == es;
    assert Inv(Run(s, es + [e]));
  }

  lemma {:induction false} OneStep(s: State, e: Event, sig: Sig)
    requires Inv(s) && Admissible(s, e, sig)
    ensures Path(s, [e], Step(s, e), sig) && Inv(Step(s, e))
  {
    assert [e][..0] == [];
    StepKeepsInv(s, e);
  }

  /** A path is a shorter path and one more step. */
  lemma {:induction false} PathLast(s: State, es: seq<Event>, t: State, sig: Sig)
    requires Path(s, es, t, sig) && es != []
    ensures var n := |es| - 1;
            var mid := Run(s, es[..n]);
            Path(s, es[..n], mid, sig) && Admissible(mid, es[n], sig) && Step(mid, es[n]) == t
  {
  }

  lemma {:induction false} PathThen(s: State, a: seq<Event>, t: State, b: seq<Event>, u: State, sig: Sig)
    requires Path(s, a, t, sig) && Path(t, b, u, sig)
    ensures Path(s, a + b, u, sig)
    decreases |b|
  {
    if b == [] {
      assert a + b == a;
    } else {
      var n := |b| - 1;
      var mid := Run(t, b[..n]);
      PathLast(t, b, u, sig);
      PathThen(s, a, t, b[..n], mid, sig);
      PathStep(s, a + b[..n], mid, b[n], sig);
      PrefixAndLast(a, b);
    }
  }

  // ---------------------------------------------------------------- the pieces of a failing run

  lemma {:induction false} FreshClient(clients: map<nat, Client>) returns (r: nat)
    ensures r !in clients
  {
    r := Above(clients.Keys);
  }

  lemma {:induction false} Above(s: set<nat>) returns (n: nat)
    ensures forall i :: i in s ==> i < n
    decreases s
  {
    n := 0;
    if s != {} {
      var x :| x in s;
      var m := Above(s - {x});
      n := if x < m then m else x + 1;
      assert forall i :: i in s ==> i == x || i in s - {x};
    }
  }

  /** The touch of a new reader changes the age of the live copy and nothing else. */
  lemma {:induction false} TouchEffect(s: State, sig: Sig, r: nat)
    requires Inv(s) && Blob(sig) in s.disk.dir && s.Client(r) == Touch(sig)
    ensures Path(s, [ClientCall(r)], Call(s, r), sig) && Inv(Call(s, r))
    ensures var t := Call(s, r);
            && t.disk.dir == s.disk.dir && t.pruner == s.pruner && t.disk.clock == s.disk.clock
            && t.Client(r) == Open(sig, s.disk.clock)
            && (BlobGc(sig) in s.disk.dir ==> t.disk.MTime(BlobGc(sig)) == s.disk.MTime(BlobGc(sig)))
            && forall c :: c != r ==> t.Client(c) == s.Client(c)
  {
    OneStep(s, ClientCall(r), sig);
  }

  /** Time passes and a new reader starts. */
  lemma {:induction false} Arrives(s: State, sig: Sig, r: nat, wait: nat) returns (es: seq<Event>)
    requires Inv(s) && s.Client(r).Idle?
    ensures var t := s.(disk := s.disk.(clock := s.disk.clock + wait), clients := s.clients[r := Touch(sig)]);
            Path(s, es, t, sig) && Inv(t)
  {
    var s1 := Step(s, Tick(wait));
    OneStep(s, Tick(wait), sig);
    assert s1.Client(r) == s.Client(r);
    PathStep(s, [Tick(wait)], s1, ClientStart(r, sig), sig);
    es := [Tick(wait)] + [ClientStart(r, sig)];
  }

  /** A new reader touches the live copy after the clock has passed the old copy's age. */
  lemma {:induction false} NewReader(s: State, sig: Sig, r: nat, age: int) returns (es: seq<Event>, t: State)
    requires Inv(s) && BothNames(s.disk, sig) && s.Client(r).Idle?
    ensures Path(s, es, t, sig) && Inv(t)
    ensures t.disk.dir == s.disk.dir && t.pruner == s.pruner
    ensures t.disk.MTime(BlobGc(sig)) == s.disk.MTime(BlobGc(sig))
    ensures t.Client(r) == Open(sig, t.disk.clock) && age < t.disk.clock
    ensures forall c :: c != r ==> t.Client(c) == s.Client(c)
  {
    var wait := if age < s.disk.clock then 0 else age - s.disk.clock + 1;
    var u := s.(disk := s.disk.(clock := s.disk.clock + wait), clients := s.clients[r := Touch(sig)]);
    es := Arrives(s, sig, r, wait);
    Arrived(s, u, sig, r);
    TouchEffect(u, sig, r);
    t := Call(u, r);
    PathThen(s, es, u, [ClientCall(r)], t, sig);
    es := es + [ClientCall(r)];
  }

  lemma {:induction false} Arrived(s: State, u: State, sig: Sig, r: nat)
    requires u.clients == s.clients[r := Touch(sig)]
    ensures u.Client(r) == Touch(sig) && forall c :: c != r ==> u.Client(c) == s.Client(c)
  {
  }

  /** The rescue of one thread replaces the live copy by the old one. */
  lemma {:induction false} RescueReplaces(s: State, sig: Sig, c: nat)
    requires Inv(s) && BothNames(s.disk, sig) && Rescuing(s.Client(c), sig)
    ensures Path(s, [ClientCall(c)], Call(s, c), sig) && Inv(Call(s, c))
    ensures var t := Call(s, c);
            && t.pruner == s.pruner && t.disk.files == s.disk.files && t.disk.clock == s.disk.clock
            && Blob(sig) in t.disk.dir && BlobGc(sig) !in t.disk.dir
            && t.disk.MTime(Blob(sig)) == s.disk.MTime(BlobGc(sig))
            && forall b :: b != c ==> t.Client(b) == s.Client(b)
  {
    OneStep(s, ClientCall(c), sig);
  }

  /** Undisturbed, a reading that is under way succeeds if the copy is under its proper name. */
  lemma {:induction false} FinishOne(s: State, sig: Sig, c: nat) returns (es: seq<Event>, t: State)
    requires Inv(s) && Opening(s.Client(c), sig) && Blob(sig) in s.disk.dir && BlobGc(sig) !in s.disk.dir
    ensures Path(s, es, t, sig) && Inv(t)
    ensures t.disk == s.disk && t.pruner == s.pruner && t.Client(c).Got?
    ensures forall b :: b != c ==> t.Client(b) == s.Client(b)
    ensures t.clients.Keys == s.clients.Keys
  {
    OneStep(s, ClientCall(c), sig);
    es, t := [ClientCall(c)], Call(s, c);
    if s.Client(c).OpenRescue? {
      PathStep(s, es, t, ClientCall(c), sig);
      es, t := es + [ClientCall(c)], Call(t, c);
    }
  }

  function Readers(s: State, sig: Sig, r: nat): set<nat> {
    set c | c in s.clients && c != r && Opening(s.clients[c], sig)
  }

  lemma {:induction false} FinishOthers(s: State, sig: Sig, r: nat) returns (es: seq<Event>, t: State)
    requires Inv(s) && Blob(sig) in s.disk.dir && BlobGc(sig) !in s.disk.dir
    ensures Path(s, es, t, sig) && Inv(t)
    ensures t.disk == s.disk && t.pruner == s.pruner && t.Client(r) == s.Client(r)
    ensures forall c :: c != r ==> !Opening(t.Client(c), sig)
    decreases Readers(s, sig, r)
  {
    if c :| c in Readers(s, sig, r) {
      var first, mid := FinishOne(s, sig, c);
      assert Readers(mid, sig, r) == Readers(s, sig, r) - {c} by {
        assert forall b :: b in s.clients && b != c ==> mid.clients[b] == mid.Client(b) == s.Client(b) == s.clients[b];
        assert mid.Client(c) == mid.clients[c];
      }
      var rest;
      rest, t := FinishOthers(mid, sig, r);
      PathThen(s, first, mid, rest, t, sig);
      es := first + rest;
    } else {
      es, t := [], s;
      forall c | c != r ensures !Opening(t.Client(c), sig) {
        assert c in s.clients ==> c !in Readers(s, sig, r);
      }
    }
  }

  /** What the directory says of sig. */
  predicate SameCopies(d: Disk, e: Disk, sig: Sig) {
    && e.files == d.files && e.clock == d.clock
    && (Blob(sig) in e.dir <==> Blob(sig) in d.dir) && (BlobGc(sig) in e.dir <==> BlobGc(sig) in d.dir)
    && (Blob(sig) in d.dir ==> e.dir[Blob(sig)] == d.dir[Blob(sig)])
    && (BlobGc(sig) in d.dir ==> e.dir[BlobGc(sig)] == d.dir[BlobGc(sig)])
  }

  /** One name of the first pass, other than sig's. */
  lemma {:induction false} MarkOne(s: State, sig: Sig, n: Name) returns (es: seq<Event>, t: State)
    requires Inv(s) && s.pruner.Mark? && n in s.pruner.todo && n != Blob(sig) && !n.Gc()
    ensures Path(s, es, t, sig) && Inv(t)
    ensures t.pruner == Mark(s.pruner.expires, s.pruner.todo - {n})
    ensures t.clients == s.clients && SameCopies(s.disk, t.disk, sig)
  {
    OneStep(s, PruneStat(n), sig);
    es, t := [PruneStat(n)], Step(s, PruneStat(n));
    if t.pruner.MarkRename? {
      PathStep(s, es, t, PruneAct, sig);
      es, t := es + [PruneAct], Step(t, PruneAct);
    }
  }

  /** The rest of the first pass, over names other than sig's. */
  lemma {:induction false} FinishMarking(s: State, sig: Sig) returns (es: seq<Event>, t: State)
    requires Inv(s) && s.pruner.Mark? && Blob(sig) !in s.pruner.todo
    ensures Path(s, es, t, sig) && Inv(t)
    ensures t.pruner == Mark(s.pruner.expires, {}) && t.clients == s.clients && SameCopies(s.disk, t.disk, sig)
    decreases s.pruner.todo
  {
    if n :| n in s.pruner.todo {
      var first, mid := MarkOne(s, sig, n);
      var rest;
      rest, t := FinishMarking(mid, sig);
      PathThen(s, first, mid, rest, t, sig);
      es := first + rest;
    } else {
      es, t := [], s;
    }
  }

  /** A prune starts and looks at an expired copy of sig. */
  lemma {:induction false} MarksIt(s: State, sig: Sig, expires: int) returns (es: seq<Event>, todo: set<Name>)
    requires Inv(s) && s.pruner.Resting? && Blob(sig) in s.disk.dir
    requires s.disk.MTime(Blob(sig)) < expires <= s.disk.clock
    requires forall c :: Opening(s.Client(c), sig) ==> expires <= s.Client(c).at
    ensures var t := s.(pruner := MarkRename(expires, todo, Blob(sig)));
            Path(s, es, t, sig) && Inv(t) && Blob(sig) !in todo
  {
    var listing := set n | n in s.disk.dir && !n.Gc();
    var start := PruneStart(s.disk.clock - expires, listing);
    OneStep(s, start, sig);
    var s1 := Step(s, start);
    PathStep(s, [start], s1, PruneStat(Blob(sig)), sig);
    es, todo := [start] + [PruneStat(Blob(sig))], listing - {Blob(sig)};
    assert Step(s1, PruneStat(Blob(sig))) == s.(pruner := MarkRename(expires, todo, Blob(sig)));
  }

  /** It renames the copy. */
  lemma {:induction false} DoomsIt(s: State, sig: Sig) returns (t: State)
    requires Inv(s) && s.pruner.MarkRename? && s.pruner.name == Blob(sig) && Blob(sig) in s.disk.dir
    ensures t == Step(s, PruneAct) && Path(s, [PruneAct], t, sig) && Inv(t)
    ensures t.pruner == Mark(s.pruner.expires, s.pruner.todo) && t.clients == s.clients
    ensures Blob(sig) !in t.disk.dir && BlobGc(sig) in t.disk.dir
    ensures t.disk.MTime(BlobGc(sig)) == s.disk.MTime(Blob(sig))
  {
    t := Step(s, PruneAct);
    OneStep(s, PruneAct, sig);
  }

  /** The first pass of a prune renames a copy older than every reading of it. */
  lemma {:induction false} FirstPass(s: State, sig: Sig, expires: int) returns (es: seq<Event>, t: State)
    requires Inv(s) && s.pruner.Resting? && Blob(sig) in s.disk.dir
    requires s.disk.MTime(Blob(sig)) < expires <= s.disk.clock
    requires forall c :: Opening(s.Client(c), sig) ==> expires <= s.Client(c).at
    ensures Path(s, es, t, sig) && Inv(t)
    ensures t.pruner == Mark(expires, {}) && t.clients == s.clients
    ensures Blob(sig) !in t.disk.dir && BlobGc(sig) in t.disk.dir
    ensures t.disk.MTime(BlobGc(sig)) == s.disk.MTime(Blob(sig))
  {
    var first, todo := MarksIt(s, sig, expires);
    var s2 := s.(pruner := MarkRename(expires, todo, Blob(sig)));
    var s3 := DoomsIt(s2, sig);
    var rest;
    rest, t := FinishMarking(s3, sig);
    PathThen(s, first, s2, [PruneAct], s3, sig);
    PathThen(s, first + [PruneAct], s3, rest, t, sig);
    es := first + [PruneAct] + rest;
  }

  /** The second pass deletes it. */
  lemma {:induction false} SecondPass(s: State, sig: Sig) returns (es: seq<Event>, t: State)
    requires Inv(s) && s.pruner.Mark? && s.pruner.todo == {} && BlobGc(sig) in s.disk.dir
    requires s.disk.MTime(BlobGc(sig)) < s.pruner.expires
    ensures Path(s, es, t, sig) && Inv(t)
    ensures t.clients == s.clients && t.disk.dir == s.disk.dir - {BlobGc(sig)}
  {
    var sweep := PruneSweep(set n | n in s.disk.dir && n.Gc());
    OneStep(s, sweep, sig);
    var s1 := Step(s, sweep);
    PathStep(s, [sweep], s1, PruneStat(BlobGc(sig)), sig);
    var s2 := Step(s1, PruneStat(BlobGc(sig)));
    es := [sweep] + [PruneStat(BlobGc(sig))];
    PathStep(s, es, s2, PruneAct, sig);
    es, t := es + [PruneAct], Step(s2, PruneAct);
  }

  /** A reader whose blob is gone fails: open, rescue and open again. */
  lemma {:induction false} ReaderFails(s: State, sig: Sig, r: nat) returns (es: seq<Event>, t: State)
    requires Inv(s) && s.Client(r).Open? && s.Client(r).sig == sig
    requires Blob(sig) !in s.disk.dir && BlobGc(sig) !in s.disk.dir
    ensures Path(s, es, t, sig) && t.Client(r) == Failed(sig)
  {
    OneStep(s, ClientCall(r), sig);
    var s1 := Call(s, r);
    PathStep(s, [ClientCall(r)], s1, ClientCall(r), sig);
    var s2 := Call(s1, r);
    es := [ClientCall(r)] + [ClientCall(r)];
    PathStep(s, es, s2, ClientCall(r), sig);
    es, t := es + [ClientCall(r)], Call(s2, r);
  }

  // ---------------------------------------------------------------- the failing half

  /** With an old copy under the proper name and one young reader, a prune takes the copy away
      from the reader. */
  lemma {:induction false} PruneTakesIt(s: State, sig: Sig, r: nat) returns (es: seq<Event>, t: State)
    requires Inv(s) && s.pruner.Resting? && Blob(sig) in s.disk.dir && BlobGc(sig) !in s.disk.dir
    requires s.Client(r).Open? && s.Client(r).sig == sig
    requires s.disk.MTime(Blob(sig)) < s.Client(r).at <= s.disk.clock
    requires forall c :: c != r ==> !Opening(s.Client(c), sig)
    ensures Path(s, es, t, sig) && t.Client(r) == Failed(sig)
  {
    var a, s1 := FirstPass(s, sig, s.Client(r).at);
    var b, s2 := SecondPass(s1, sig);
    var c;
    c, t := ReaderFails(s2, sig, r);
    PathThen(s, a, s1, b, s2, sig);
    PathThen(s, a + b, s2, c, t, sig);
    es := a + b + c;
  }

  /** r alone is about to open sig, of which there is at most one copy, older than r's access. */
  ghost predicate Stale(s: State, sig: Sig, r: nat) {
    && Inv(s)
    && s.Client(r).Open? && s.Client(r).sig == sig && s.Client(r).at <= s.disk.clock
    && (forall c :: c != r ==> !Opening(s.Client(c), sig))
    && !BothNames(s.disk, sig)
    && (Blob(sig) in s.disk.dir ==> s.disk.MTime(Blob(sig)) < s.Client(r).at)
    && (BlobGc(sig) in s.disk.dir ==> s.disk.MTime(BlobGc(sig)) < s.Client(r).at)
  }

  /** How much of a prune is left: the pass, the names to look at, and a rename or unlink to come. */
  function Passes(p: Pruner): nat { if p.Mark? || p.MarkRename? then 2 else if p.Resting? then 0 else 1 }

  function Names(p: Pruner): set<Name> { if p.Resting? then {} else p.todo }

  function Pending(p: Pruner): nat { if p.MarkRename? || p.SweepUnlink? then 1 else 0 }

  /** Progress of the pruner alone. */
  lemma {:induction false} StaleBut(s: State, p: Pruner, sig: Sig, r: nat)
    requires Stale(s, sig, r) && Inv(s.(pruner := p))
    ensures Stale(s.(pruner := p), sig, r)
  {
    assert forall c :: s.(pruner := p).Client(c) == s.Client(c);
  }

  lemma {:induction false} LookKeepsStale(s: State, n: Name, sig: Sig, r: nat)
    requires Stale(s, sig, r) && n in Names(s.pruner) && Pending(s.pruner) == 0
    ensures Stale(Step(s, PruneStat(n)), sig, r) && Names(Step(s, PruneStat(n)).pruner) < Names(s.pruner)
    ensures Passes(Step(s, PruneStat(n)).pruner) == Passes(s.pruner)
  {
    StepKeepsInv(s, PruneStat(n));
    StaleBut(s, Step(s, PruneStat(n)).pruner, sig, r);
  }

  lemma {:induction false} NextPassKeepsStale(s: State, e: Event, sig: Sig, r: nat)
    requires Stale(s, sig, r) && !s.pruner.Resting? && Names(s.pruner) == {} && Pending(s.pruner) == 0
    requires e == if s.pruner.Mark? then PruneSweep({}) else PruneEnd
    ensures Stale(Step(s, e), sig, r) && Passes(Step(s, e).pruner) < Passes(s.pruner)
  {
    StepKeepsInv(s, e);
    StaleBut(s, Step(s, e).pruner, sig, r);
  }

  lemma {:induction false} ActKeepsStale(s: State, sig: Sig, r: nat)
    requires Stale(s, sig, r) && Pending(s.pruner) == 1
    ensures Stale(Act(s), sig, r) && Names(Act(s).pruner) == Names(s.pruner)
    ensures Passes(Act(s).pruner) == Passes(s.pruner) && Pending(Act(s).pruner) == 0
  {
    ActKeepsInv(s);
    assert forall c :: Act(s).Client(c) == s.Client(c);
  }

  lemma {:induction false} PruneOneMore(s: State, sig: Sig, r: nat) returns (e: Event)
    requires Stale(s, sig, r) && !s.pruner.Resting?
    ensures Admissible(s, e, sig) && Stale(Step(s, e), sig, r)
    ensures var p, q := s.pruner, Step(s, e).pruner;
            || Passes(q) < Passes(p)
            || (Passes(q) == Passes(p) && (Names(q) < Names(p) || (Names(q) == Names(p) && Pending(q) < Pending(p))))
  {
    if Pending(s.pruner) == 1 {
      e := PruneAct;
      ActKeepsStale(s, sig, r);
    } else if n :| n in Names(s.pruner) {
      e := PruneStat(n);
      LookKeepsStale(s, n, sig, r);
    } else {
      e := if s.pruner.Mark? then PruneSweep({}) else PruneEnd;
      NextPassKeepsStale(s, e, sig, r);
    }
  }

  /** The prune that is under way, if any, comes to its end; it may doom or remove the copy. */
  lemma {:induction false} FinishPrune(s: State, sig: Sig, r: nat) returns (es: seq<Event>, t: State)
    requires Stale(s, sig, r)
    ensures Path(s, es, t, sig) && Stale(t, sig, r) && t.pruner.Resting?
    decreases Passes(s.pruner), Names(s.pruner), Pending(s.pruner)
  {
    if s.pruner.Resting? {
      es, t := [], s;
    } else {
      var e := PruneOneMore(s, sig, r);
      OneStep(s, e, sig);
      var rest;
      rest, t := FinishPrune(Step(s, e), sig, r);
      PathThen(s, [e], Step(s, e), rest, t, sig);
      es := [e] + rest;
    }
  }

  /** A doomed copy older than the reading goes with the next prune. */
  lemma {:induction false} PruneSweepsIt(s: State, sig: Sig, r: nat) returns (es: seq<Event>, t: State)
    requires Stale(s, sig, r) && s.pruner.Resting? && BlobGc(sig) in s.disk.dir
    ensures Path(s, es, t, sig) && t.Client(r) == Failed(sig)
  {
    var start := PruneStart(s.disk.clock - s.Client(r).at, {});
    OneStep(s, start, sig);
    var s1 := Step(s, start);
    var a, s2 := SecondPass(s1, sig);
    var b;
    b, t := ReaderFails(s2, sig, r);
    PathThen(s, [start], s1, a, s2, sig);
    PathThen(s, [start] + a, s2, b, t, sig);
    es := [start] + a + b;
  }

  /** Wherever the pruner is, the reader can find the blob gone. */
  lemma {:induction false} StaleFails(s: State, sig: Sig, r: nat) returns (es: seq<Event>, t: State)
    requires Stale(s, sig, r)
    ensures Path(s, es, t, sig) && t.Client(r) == Failed(sig)
  {
    var a, mid := FinishPrune(s, sig, r);
    var b;
    if Blob(sig) in mid.disk.dir {
      b, t := PruneTakesIt(mid, sig, r);
    } else if BlobGc(sig) in mid.disk.dir {
      b, t := PruneSweepsIt(mid, sig, r);
    } else {
      b, t := ReaderFails(mid, sig, r);
    }
    PathThen(s, a, mid, b, t, sig);
    es := a + b;
  }

  /** While a rescue is under way and the blob goes by both names, however young the live copy
      is: a reader who touches it now can find it gone. */
  lemma {:induction false} CrossingFails(s: State, sig: Sig) returns (es: seq<Event>, r: nat)
    requires Inv(s) && !NoCrossing(s, sig)
    ensures AdmissibleRun(s, es, sig) && Run(s, es).Client(r) == Failed(sig)
  {
    var c :| Rescuing(s.Client(c), sig);
    r := FreshClient(s.clients);
    var age := s.disk.MTime(BlobGc(sig));
    var a, s1 := NewReader(s, sig, r, age);
    assert c != r && s1.Client(c) == s.Client(c);
    RescueReplaces(s1, sig, c);
    var s2 := Call(s1, c);
    var b, s3 := FinishOthers(s2, sig, r);
    var d, t := StaleFails(s3, sig, r);
    PathThen(s, a, s1, [ClientCall(c)], s2, sig);
    PathThen(s, a + [ClientCall(c)], s2, b, s3, sig);
    PathThen(s, a + [ClientCall(c)] + b, s3, d, t, sig);
    es := a + [ClientCall(c)] + b + d;
  }

  /** Reading is safe, for every reader and every admissible future, exactly if no rescue is
      under way while the blob goes by both names. */
  lemma {:induction false} ReadsSafeExactly(s: State, sig: Sig)
    requires Settled(s, sig)
    ensures NoCrossing(s, sig) <==>
            forall es, r :: AdmissibleRun(s, es, sig) ==> Run(s, es).Client(r) != Failed(sig)
  {
    if NoCrossing(s, sig) {
      forall es, r | AdmissibleRun(s, es, sig) ensures Run(s, es).Client(r) != Failed(sig) {
        ReadSucceeds(s, es, sig, r);
      }
    } else {
      var es, r := CrossingFails(s, sig);
    }
  }

  // ---------------------------------------------------------------- from an empty cache

  const X := Sha256("x")

  const EMPTY := State(Disk(map[], map[], 0), Resting, map[], map[])

  /** es leads from s to t. */
  ghost predicate Leads(s: State, es: seq<Event>, t: State) {
    Inv(s) && Run(s, es) == t
  }

  lemma {:induction false} LeadStep(s: State, es: seq<Event>, t: State, e: Event)
    requires Leads(s, es, t)
    ensures Leads(s, es + [e], Step(t, e)) && Inv(Step(t, e))
  {
    assert (es + [e])[..|es|] == es;
    assert Inv(Run(s, es + [e]));
  }

  lemma {:induction false} LeadThen(s: State, a: seq<Event>, t: State, b: seq<Event>, u: State)
    requires Leads(s, a, t) && Leads(t, b, u)
    ensures Leads(s, a + b, u) && Inv(u)
    decreases |b|
  {
    if b == [] {
      assert a + b == a;
    } else {
      var n := |b| - 1;
      LeadThen(s, a, t, b[..n], Run(t, b[..n]));
      LeadStep(s, a + b[..n], Run(t, b[..n]), b[n]);
      PrefixAndLast(a, b);
    }
  }

  ghost predicate Trace(states: seq<State>, es: seq<Event>) {
    && |states| == |es| + 1
    && forall i :: 0 <= i < |es| ==> states[i].disk.Valid() && Step(states[i], es[i]) == states[i + 1]
  }

  lemma {:induction false} TraceLeads(states: seq<State>, es: seq<Event>)
    requires Trace(states, es) && Inv(states[0])
    ensures Leads(states[0], es, states[|es|]) && Inv(states[|es|])
    decreases |es|
  {
    if es != [] {
      var n := |es| - 1;
      assert Trace(states[..n + 1], es[..n]);
      TraceLeads(states[..n + 1], es[..n]);
      LeadStep(states[0], es[..n], states[n], es[n]);
      assert es[..n] + [es[n]] == es;
    }
  }

  /** add("x") by adder 0, before each of its system calls. */
  function Adding(s: State, dir: map<Name, nat>, file: map<nat, File>, x: Adder): State {
    s.(disk := s.disk.(dir := dir, files := s.disk.files + file), adders := s.adders[0 := x])
  }

  lemma {:induction false} AddBegins(s: State, inode: nat)
    requires s.disk.Valid() && s.Adder(0).NotAdding? && inode !in s.disk.files
    ensures var dir, file := s.disk.dir[Temp(inode) := inode], map[inode := File(s.disk.clock, "")];
            Step(s, AddStart(0, inode, "x")) == Adding(s, dir, file, AddWrite(inode, "x"))
  {
    assert s.disk.files + map[inode := File(s.disk.clock, "")] == s.disk.files[inode := File(s.disk.clock, "")];
  }

  lemma {:induction false} AddWrites(s: State, dir: map<Name, nat>, inode: nat)
    requires Adding(s, dir, map[inode := File(s.disk.clock, "")], AddWrite(inode, "x")).disk.Valid()
    ensures Step(Adding(s, dir, map[inode := File(s.disk.clock, "")], AddWrite(inode, "x")), AddCall(0))
         == Adding(s, dir, map[inode := File(s.disk.clock, "x")], AddLink(inode, "x"))
  {
    var empty, full := map[inode := File(s.disk.clock, "")], map[inode := File(s.disk.clock, "x")];
    assert (s.disk.files + empty)[inode := File(s.disk.clock, "x")] == s.disk.files + full;
    assert s.adders[0 := AddWrite(inode, "x")][0 := AddLink(inode, "x")] == s.adders[0 := AddLink(inode, "x")];
  }

  lemma {:induction false} AddLinks(s: State, dir: map<Name, nat>, file: map<nat, File>, inode: nat)
    requires Adding(s, dir, file, AddLink(inode, "x")).disk.Valid() && Temp(inode) in dir && dir[Temp(inode)] == inode && Blob(X) !in dir
    ensures Step(Adding(s, dir, file, AddLink(inode, "x")), AddCall(0))
         == Adding(s, dir[Blob(X) := inode], file, AddUnlink(inode))
  {
    assert s.adders[0 := AddLink(inode, "x")][0 := AddUnlink(inode)] == s.adders[0 := AddUnlink(inode)];
  }

  lemma {:induction false} AddEnds(s: State, dir: map<Name, nat>, file: map<nat, File>, inode: nat)
    requires Adding(s, dir, file, AddUnlink(inode)).disk.Valid()
    ensures Step(Adding(s, dir, file, AddUnlink(inode)), AddCall(0)) == Adding(s, dir - {Temp(inode)}, file, NotAdding)
  {
    assert s.adders[0 := AddUnlink(inode)][0 := NotAdding] == s.adders[0 := NotAdding];
  }

  lemma {:induction false} TwoSteps(s: State, d: Event, t: State, e: Event, u: State)
    requires Inv(s) && Step(s, d) == t && t.disk.Valid() && Step(t, e) == u
    ensures Leads(s, [d, e], u) && Inv(u)
  {
    LeadStep(s, [], s, d);
    assert [] + [d] == [d] && [d] + [e] == [d, e];
    LeadStep(s, [d], t, e);
  }

  /** A complete addition of "x", when the cache does not have it under its proper name. */
  lemma {:induction false} AddsX(s: State, inode: nat) returns (es: seq<Event>)
    requires Inv(s) && s.Adder(0).NotAdding? && inode !in s.disk.files && Blob(X) !in s.disk.dir && Temp(inode) !in s.disk.dir
    ensures var t := Adding(s, s.disk.dir[Blob(X) := inode], map[inode := File(s.disk.clock, "x")], NotAdding);
            Leads(s, es, t) && Inv(t)
  {
    var s2 := AddFirstHalf(s, inode);
    var s4 := AddSecondHalf(s, s2, inode);
    LeadThen(s, [AddStart(0, inode, "x"), AddCall(0)], s2, [AddCall(0), AddCall(0)], s4);
    es := [AddStart(0, inode, "x"), AddCall(0)] + [AddCall(0), AddCall(0)];
  }

  lemma {:induction false} AddFirstHalf(s: State, inode: nat) returns (t: State)
    requires Inv(s) && s.Adder(0).NotAdding? && inode !in s.disk.files
    ensures t == Adding(s, s.disk.dir[Temp(inode) := inode], map[inode := File(s.disk.clock, "x")], AddLink(inode, "x"))
    ensures Leads(s, [AddStart(0, inode, "x"), AddCall(0)], t) && Inv(t)
  {
    AddBegins(s, inode);
    var mid := Step(s, AddStart(0, inode, "x"));
    AddWrites(s, s.disk.dir[Temp(inode) := inode], inode);
    t := Step(mid, AddCall(0));
    TwoSteps(s, AddStart(0, inode, "x"), mid, AddCall(0), t);
  }

  lemma {:induction false} AddSecondHalf(s: State, s2: State, inode: nat) returns (t: State)
    requires s2 == Adding(s, s.disk.dir[Temp(inode) := inode], map[inode := File(s.disk.clock, "x")], AddLink(inode, "x"))
    requires Inv(s2) && Blob(X) !in s.disk.dir && Temp(inode) !in s.disk.dir
    ensures t == Adding(s, s.disk.dir[Blob(X) := inode], map[inode := File(s.disk.clock, "x")], NotAdding)
    ensures Leads(s2, [AddCall(0), AddCall(0)], t) && Inv(t)
  {
    var dir, file := s.disk.dir[Temp(inode) := inode], map[inode := File(s.disk.clock, "x")];
    AddLinks(s, dir, file, inode);
    var mid := Step(s2, AddCall(0));
    AddEnds(s, dir[Blob(X) := inode], file, inode);
    t := Step(mid, AddCall(0));
    TwoSteps(s2, AddCall(0), mid, AddCall(0), t);
    assert dir[Blob(X) := inode] - {Temp(inode)} == s.disk.dir[Blob(X) := inode];
  }

  /** A reader touches X between the pruner's stat and its rename, so the prune leaves X under its
      doomed name alone. */
  lemma {:induction false} LeftDoomed() returns (es: seq<Event>)
    ensures Leads(EMPTY, es, MissedAt(9)) && Inv(MissedAt(9))
  {
    var first := AddsX(EMPTY, 0);
    AddedFirst();
    var touch := UpToTheTouch();
    var spared := FromTheTouch();
    LeadThen(EMPTY, first, MissedAt(0), touch, MissedAt(5));
    LeadThen(EMPTY, first + touch, MissedAt(5), spared, MissedAt(9));
    es := first + touch + spared;
  }

  lemma {:induction false} AddedFirst()
    ensures Adding(EMPTY, EMPTY.disk.dir[Blob(X) := 0], map[0 := File(EMPTY.disk.clock, "x")], NotAdding) == MissedAt(0)
  {
    assert EMPTY.disk.files + OLD_FILE == OLD_FILE;
  }

  const ADDED := map[0 := NotAdding]
  const OLD_FILE := map[0 := File(0, "x")]
  const NEW_FILE := map[0 := File(10, "x")]
  const LIVE := map[Blob(X) := 0]
  const DOOMED := map[BlobGc(X) := 0]

  /** The states in which a prune misses X. */
  function MissedAt(n: nat): State {
    if n == 0 then State(Disk(LIVE, OLD_FILE, 0), Resting, map[], ADDED)
    else if n == 1 then State(Disk(LIVE, OLD_FILE, 10), Resting, map[], ADDED)
    else if n == 2 then State(Disk(LIVE, OLD_FILE, 10), Mark(5, {Blob(X)}), map[], ADDED)
    else if n == 3 then State(Disk(LIVE, OLD_FILE, 10), MarkRename(5, {}, Blob(X)), map[], ADDED)
    else if n == 4 then State(Disk(LIVE, OLD_FILE, 10), MarkRename(5, {}, Blob(X)), map[1 := Touch(X)], ADDED)
    else if n == 5 then State(Disk(LIVE, NEW_FILE, 10), MarkRename(5, {}, Blob(X)), map[1 := Open(X, 10)], ADDED)
    else if n == 6 then State(Disk(DOOMED, NEW_FILE, 10), Mark(5, {}), map[1 := Open(X, 10)], ADDED)
    else if n == 7 then State(Disk(DOOMED, NEW_FILE, 10), Sweep(5, {BlobGc(X)}), map[1 := Open(X, 10)], ADDED)
    else if n == 8 then State(Disk(DOOMED, NEW_FILE, 10), Sweep(5, {}), map[1 := Open(X, 10)], ADDED)
    else State(Disk(DOOMED, NEW_FILE, 10), Resting, map[1 := Open(X, 10)], ADDED)
  }

  lemma {:induction false} PruneLooks()
    ensures Step(MissedAt(0), Tick(10)) == MissedAt(1)
    ensures Step(MissedAt(1), PruneStart(5, {Blob(X)})) == MissedAt(2)
    ensures Step(MissedAt(2), PruneStat(Blob(X))) == MissedAt(3)
  {
    assert {Blob(X)} - {Blob(X)} == {};
  }

  lemma {:induction false} ReaderTouches()
    ensures Step(MissedAt(3), ClientStart(1, X)) == MissedAt(4)
    ensures Step(MissedAt(4), ClientCall(1)) == MissedAt(5)
  {
    assert map[1 := Touch(X)][1 := Open(X, 10)] == map[1 := Open(X, 10)];
    assert OLD_FILE[0 := File(10, "x")] == NEW_FILE;
  }

  lemma {:induction false} PruneRenames()
    ensures Step(MissedAt(5), PruneAct) == MissedAt(6)
  {
    assert (LIVE - {Blob(X)})[BlobGc(X) := 0] == DOOMED;
  }

  lemma {:induction false} PruneSpares()
    ensures Step(MissedAt(6), PruneSweep({BlobGc(X)})) == MissedAt(7)
    ensures Step(MissedAt(7), PruneStat(BlobGc(X))) == MissedAt(8)
    ensures Step(MissedAt(8), PruneEnd) == MissedAt(9)
  {
    assert {BlobGc(X)} - {BlobGc(X)} == {};
  }

  lemma {:induction false} SweptValid()
    ensures MissedAt(6).disk.Valid() && MissedAt(8).disk.Valid()
  {
  }

  lemma {:induction false} UpToTheTouch() returns (es: seq<Event>)
    requires Inv(MissedAt(0))
    ensures Leads(MissedAt(0), es, MissedAt(5)) && Inv(MissedAt(5))
  {
    PruneLooks();
    ReaderTouches();
    var states := [MissedAt(0), MissedAt(1), MissedAt(2), MissedAt(3), MissedAt(4), MissedAt(5)];
    es := [Tick(10), PruneStart(5, {Blob(X)}), PruneStat(Blob(X)), ClientStart(1, X), ClientCall(1)];
    TraceLeads(states, es);
  }

  lemma {:induction false} FromTheTouch() returns (es: seq<Event>)
    requires Inv(MissedAt(5))
    ensures Leads(MissedAt(5), es, MissedAt(9)) && Inv(MissedAt(9))
  {
    PruneRenames();
    PruneSpares();
    SweptValid();
    TwoSteps(MissedAt(5), PruneAct, MissedAt(6), PruneSweep({BlobGc(X)}), MissedAt(7));
    TwoSteps(MissedAt(7), PruneStat(BlobGc(X)), MissedAt(8), PruneEnd, MissedAt(9));
    es := [PruneAct, PruneSweep({BlobGc(X)})] + [PruneStat(BlobGc(X)), PruneEnd];
    LeadThen(MissedAt(5), [PruneAct, PruneSweep({BlobGc(X)})], MissedAt(7), [PruneStat(BlobGc(X)), PruneEnd], MissedAt(9));
  }

  /** X is doomed, and a second reader has found it so and is about to rescue it. */
  const ABOUT_TO_RESCUE := State(
    Disk(DOOMED, NEW_FILE, 10), Resting, map[1 := Open(X, 10), 0 := TouchRescue(X)], ADDED)

  const RESCUER_STARTED := ABOUT_TO_RESCUE.(clients := map[1 := Open(X, 10), 0 := Touch(X)])

  lemma {:induction false} RescuerStarts()
    ensures Step(MissedAt(9), ClientStart(0, X)) == RESCUER_STARTED
    ensures RESCUER_STARTED.disk.Valid() && Step(RESCUER_STARTED, ClientCall(0)) == ABOUT_TO_RESCUE
  {
    assert map[1 := Open(X, 10)][0 := Touch(X)] == map[1 := Open(X, 10), 0 := Touch(X)];
    assert map[1 := Open(X, 10), 0 := Touch(X)][0 := TouchRescue(X)] == map[1 := Open(X, 10), 0 := TouchRescue(X)];
  }

  lemma {:induction false} AboutToRescue() returns (es: seq<Event>)
    ensures Leads(EMPTY, es, ABOUT_TO_RESCUE) && Inv(ABOUT_TO_RESCUE)
  {
    var first := LeftDoomed();
    RescuerStarts();
    TwoSteps(MissedAt(9), ClientStart(0, X), RESCUER_STARTED, ClientCall(0), ABOUT_TO_RESCUE);
    LeadThen(EMPTY, first, MissedAt(9), [ClientStart(0, X), ClientCall(0)], ABOUT_TO_RESCUE);
    es := first + [ClientStart(0, X), ClientCall(0)];
  }

  /** The documentation says that the second open() should succeed.  From an empty cache: X is
      added, left doomed by a prune, added again while another thread is about to rescue it, and a
      reader who touches it after that finds it gone. */
  lemma {:induction false} ReadCanFail() returns (es: seq<Event>, r: nat)
    ensures Inv(EMPTY) && Run(EMPTY, es).Client(r) == Failed(X)
  {
    var first := AboutToRescue();
    var t := ABOUT_TO_RESCUE;
    var again := AddsX(t, 1);
    var u := Adding(t, t.disk.dir[Blob(X) := 1], map[1 := File(10, "x")], NotAdding);
    LeadThen(EMPTY, first, t, again, u);
    Crosses(u);
    var last;
    last, r := CrossingFails(u, X);
    LeadThen(EMPTY, first + again, u, last, Run(u, last));
    es := first + again + last;
  }

  lemma {:induction false} Crosses(u: State)
    requires u == Adding(ABOUT_TO_RESCUE, ABOUT_TO_RESCUE.disk.dir[Blob(X) := 1], map[1 := File(10, "x")], NotAdding)
    ensures !NoCrossing(u, X)
  {
    assert Rescuing(u.Client(0), X);
  }
}
