/** N servers and one merging client: no update of a session variable is lost or counted twice. */
module SessionProtocol {
  import opened SessionVars

  datatype Server = Server(vars: Cells, between: bool)

  /** The client gets the new parts from every server, adds them to its totals, and sends the
      sums to every server, each in any order. */
  datatype Phase =
    | Rest
    | Collecting(got: set<nat>, parts: map<string, real>)
    | Distributing(done: set<nat>, sums: map<string, real>)

  /** `applied` is history: the sum of all updates made by filters anywhere. */
  datatype System = System(servers: seq<Server>, phase: Phase, totals: map<string, real>, applied: map<string, real>)

  datatype Event =
    | Update(i: nat, values: map<string, real>)
    | Get(i: nat)
    | Merge
    | Set(i: nat)

  function At(m: map<string, real>, k: string): real {
    if k in m then m[k] else 0.0
  }

  function Plus(a: map<string, real>, b: map<string, real>): (r: map<string, real>)
    ensures r.Keys == a.Keys + b.Keys
    ensures forall k :: At(r, k) == At(a, k) + At(b, k)
  {
    map k | k in a.Keys + b.Keys :: At(a, k) + At(b, k)
  }

  predicate Everyone(s: System, who: set<nat>) {
    forall i :: 0 <= i < |s.servers| ==> i in who
  }

  /** A step that is not enabled does nothing. */
  function Step(s: System, e: Event): System {
    match e
    case Update(i, values) =>
      if i >= |s.servers| then s
      else
        var sv := s.servers[i];
        s.(servers := s.servers[i := sv.(vars := UpdateAll(sv.vars, values, sv.between))],
           applied := Plus(s.applied, values))
    case Get(i) =>
      if i >= |s.servers| || s.phase.Distributing? || (s.phase.Collecting? && i in s.phase.got) then s
      else
        var sv := s.servers[i];
        var got, parts := if s.phase.Rest? then {} else s.phase.got, if s.phase.Rest? then map[] else s.phase.parts;
        s.(servers := s.servers[i := sv.(between := true)],
           phase := Collecting(got + {i}, Plus(parts, Locals(sv.vars))))
    case Merge =>
      if s.phase.Collecting? && Everyone(s, s.phase.got) then
        var totals := Plus(s.totals, s.phase.parts);
        s.(totals := totals, phase := Distributing({}, map k | k in s.phase.parts :: totals[k]))
      else s
    case Set(i) =>
      if i >= |s.servers| || !s.phase.Distributing? || i in s.phase.done then s
      else
        var sv := s.servers[i];
        var s' := s.(servers := s.servers[i := Server(SetAll(sv.vars, s.phase.sums), false)]);
        s'.(phase := if Everyone(s, s.phase.done + {i}) then Rest else s.phase.(done := s.phase.done + {i}))
  }

  function Run(s: System, es: seq<Event>): System
    decreases |es|
  {
    if es == [] then s else Step(Run(s, es[..|es| - 1]), es[|es| - 1])
  }

  function Start(n: nat): System {
    System(seq(n, i => Server(map[], false)), Rest, map[], map[])
  }

  // ---------------------------------------------------------------- conservation

  /** What server sv holds of k and the client does not know yet. */
  function Uncollected(sv: Server, k: string): real {
    var c := CellOf(sv.vars, k);
    c.between + if sv.between then 0.0 else c.localVal
  }

  function SumUncollected(servers: seq<Server>, k: string): real {
    if servers == [] then 0.0
    else SumUncollected(servers[..|servers| - 1], k) + Uncollected(servers[|servers| - 1], k)
  }

  lemma {:induction false} SumAfterChange(servers: seq<Server>, i: nat, sv: Server, k: string)
    requires i < |servers|
    ensures SumUncollected(servers[i := sv], k) == SumUncollected(servers, k) - Uncollected(servers[i], k) + Uncollected(sv, k)
  {
    var n := |servers| - 1;
    if i == n {
      assert servers[i := sv][..n] == servers[..n];
    } else {
      SumAfterChange(servers[..n], i, sv, k);
      assert servers[i := sv][..n] == servers[..n][i := sv];
    }
  }

  function InFlight(s: System, k: string): real {
    if s.phase.Collecting? then At(s.phase.parts, k) else 0.0
  }

  ghost predicate Conserved(s: System, k: string) {
    At(s.totals, k) + InFlight(s, k) + SumUncollected(s.servers, k) == At(s.applied, k)
  }

  /** The keys of the round in progress: collected so far, or being sent. */
  function RoundKeys(p: Phase): set<string> {
    match p
    case Rest => {}
    case Collecting(_, parts) => parts.Keys
    case Distributing(_, sums) => sums.Keys
  }

  predicate Interlocked(p: Phase, i: nat) {
    match p
    case Rest => false
    case Collecting(got, _) => i in got
    case Distributing(done, _) => i !in done
  }

  /** A server has its interlock on exactly between the client's get and set, and then a
      variable that the round does not carry has collected nothing outside `between`. */
  ghost predicate Inv(s: System) {
    && (forall i :: 0 <= i < |s.servers| ==> (s.servers[i].between <==> Interlocked(s.phase, i)))
    && (forall i, k :: 0 <= i < |s.servers| && s.servers[i].between && k in s.servers[i].vars && k !in RoundKeys(s.phase) ==>
          s.servers[i].vars[k].localVal == 0.0)
    && (forall k :: k in s.totals || k in RoundKeys(s.phase) ==>
          exists i :: 0 <= i < |s.servers| && k in s.servers[i].vars)
    && (forall k :: Conserved(s, k))
  }

  lemma {:induction false} StartIsFine(n: nat)
    ensures Inv(Start(n))
  {
    forall k ensures Conserved(Start(n), k) {
      NothingYet(Start(n).servers, k);
    }
  }

  lemma {:induction false} NothingYet(servers: seq<Server>, k: string)
    requires forall i :: 0 <= i < |servers| ==> servers[i] == Server(map[], false)
    ensures SumUncollected(servers, k) == 0.0
  {
    if servers != [] {
      NothingYet(servers[..|servers| - 1], k);
    }
  }

  /** How the balance of one server changes: by the update, by what the client takes, and not
      at all when the client sets. */
  lemma {:induction false} ServerBalance(sv: Server, values: map<string, real>, k: string)
    ensures Uncollected(sv.(vars := UpdateAll(sv.vars, values, sv.between)), k) == Uncollected(sv, k) + At(values, k)
    ensures !sv.between ==> Uncollected(sv.(between := true), k) == Uncollected(sv, k) - At(Locals(sv.vars), k)
    ensures sv.between && (k in values || CellOf(sv.vars, k).localVal == 0.0) ==>
              Uncollected(Server(SetAll(sv.vars, values), false), k) == Uncollected(sv, k)
  {
  }

  lemma {:induction false} StepConserves(s: System, e: Event, k: string)
    requires Inv(s)
    ensures Conserved(Step(s, e), k)
  {
    var s' := Step(s, e);
    assert Conserved(s, k);
    if s' != s && !e.Merge? {
      var sv := s.servers[e.i];
      SumAfterChange(s.servers, e.i, s'.servers[e.i], k);
      if e.Set? {
        assert Interlocked(s.phase, e.i) && RoundKeys(s.phase) == s.phase.sums.Keys;
        assert k in sv.vars && k !in RoundKeys(s.phase) ==> sv.vars[k].localVal == 0.0;
        ServerBalance(sv, s.phase.sums, k);
      } else {
        ServerBalance(sv, if e.Update? then e.values else map[], k);
      }
    }
  }

  lemma {:induction false} StepKeepsKeys(s: System, e: Event, k: string)
    requires Inv(s)
    requires k in Step(s, e).totals || k in RoundKeys(Step(s, e).phase)
    ensures exists i :: 0 <= i < |s.servers| && k in Step(s, e).servers[i].vars
  {
    var s' := Step(s, e);
    if k in s.totals || k in RoundKeys(s.phase) {
      var i :| 0 <= i < |s.servers| && k in s.servers[i].vars;
      assert k in s'.servers[i].vars;
    } else {
      assert e.Get? && k in s.servers[e.i].vars;
      assert k in s'.servers[e.i].vars;
    }
  }

  lemma {:induction false} StepKeepsInterlock(s: System, e: Event, i: nat, k: string)
    requires Inv(s) && i < |s.servers|
    ensures Step(s, e).servers[i].between <==> Interlocked(Step(s, e).phase, i)
    ensures var sv' := Step(s, e).servers[i];
            sv'.between && k in sv'.vars && k !in RoundKeys(Step(s, e).phase) ==> sv'.vars[k].localVal == 0.0
  {
    var s' := Step(s, e);
    assert s.servers[i].between <==> Interlocked(s.phase, i);
    assert s.servers[i].between && k in s.servers[i].vars && k !in RoundKeys(s.phase) ==>
      s.servers[i].vars[k].localVal == 0.0;
    match e
    case Update(j, values) =>
      if j == i {
        assert s'.servers[i].vars == UpdateAll(s.servers[i].vars, values, s.servers[i].between);
      }
    case Get(j) =>
    case Merge =>
      assert s'.phase.Distributing? && s' != s ==> i in s.phase.got;
    case Set(j) =>
  }

  lemma {:induction false} StepKeepsInv(s: System, e: Event)
    requires Inv(s)
    ensures Inv(Step(s, e))
  {
    var s' := Step(s, e);
    forall i, k | 0 <= i < |s'.servers| && s'.servers[i].between && k in s'.servers[i].vars && k !in RoundKeys(s'.phase)
      ensures s'.servers[i].vars[k].localVal == 0.0
    {
      StepKeepsInterlock(s, e, i, k);
    }
    forall i | 0 <= i < |s'.servers| ensures s'.servers[i].between <==> Interlocked(s'.phase, i) {
      StepKeepsInterlock(s, e, i, "");
    }
    forall k ensures Conserved(s', k) {
      StepConserves(s, e, k);
    }
    forall k | k in s'.totals || k in RoundKeys(s'.phase)
      ensures exists i :: 0 <= i < |s'.servers| && k in s'.servers[i].vars
    {
      StepKeepsKeys(s, e, k);
    }
  }

  /** In every interleaving of filter updates with get/set rounds, for every variable: what the
      client knows, plus what it is carrying, plus what the servers still hold, is the sum of
      all updates. */
  lemma {:induction false} Conservation(n: nat, es: seq<Event>, k: string)
    ensures Inv(Run(Start(n), es))
    ensures Conserved(Run(Start(n), es), k)
    decreases |es|
  {
    if es == [] {
      StartIsFine(n);
    } else {
      Conservation(n, es[..|es| - 1], k);
      StepKeepsInv(Run(Start(n), es[..|es| - 1]), es[|es| - 1]);
    }
    assert Conserved(Run(Start(n), es), k);
  }

  // ---------------------------------------------------------------- rounds without updates

  /** Part-way through a round that began in s0 and saw no update. */
  ghost predicate InRound(s0: System, s: System) {
    && |s.servers| == |s0.servers| && s.applied == s0.applied
    && match s.phase
       case Rest => s == s0
       case Collecting(got, parts) =>
         && (forall i :: 0 <= i < |s0.servers| && i in got ==> s.servers[i].between)
         && (forall i :: 0 <= i < |s0.servers| ==> s.servers[i].vars == s0.servers[i].vars)
         && (forall i, k :: 0 <= i < |s0.servers| && i in got && k in s0.servers[i].vars ==> k in parts)
       case Distributing(done, sums) =>
         && (forall i, k :: 0 <= i < |s0.servers| && k in s0.servers[i].vars ==> k in sums)
         && (forall k :: k in sums ==> sums[k] == At(s.totals, k))
         && (forall i :: 0 <= i < |s0.servers| ==> (s.servers[i].between <==> i !in done))
         && (forall i :: 0 <= i < |s0.servers| ==>
               s.servers[i].vars == if i in done then SetAll(s0.servers[i].vars, sums) else s0.servers[i].vars)
  }

  /** At the end of the round every server has every variable, with the client's total and what
      was `between` when the round began. */
  ghost predicate RoundDone(s0: System, s: System) {
    && |s.servers| == |s0.servers| && s.applied == s0.applied && s.phase.Rest?
    && (forall i :: 0 <= i < |s.servers| ==> s0.servers[i].vars.Keys <= s.servers[i].vars.Keys && !s.servers[i].between)
    && forall i, k :: 0 <= i < |s.servers| && (exists j :: 0 <= j < |s.servers| && k in s.servers[j].vars) ==>
         CellOf(s.servers[i].vars, k) == Cell(At(s.totals, k), CellOf(s0.servers[i].vars, k).between, 0.0)
  }

  lemma {:induction false} SetFinishesRound(s0: System, s: System, i: nat)
    requires InRound(s0, s) && s.phase.Distributing? && i < |s.servers| && i !in s.phase.done
    requires Everyone(s, s.phase.done + {i})
    ensures RoundDone(s0, Step(s, Set(i)))
  {
    var s', sums := Step(s, Set(i)), s.phase.sums;
    forall j | 0 <= j < |s.servers| ensures s'.servers[j].vars == SetAll(s0.servers[j].vars, sums) {
      assert j in s.phase.done + {i};
    }
    forall j, k, m | 0 <= j < |s.servers| && 0 <= m < |s.servers| && k in s'.servers[m].vars
      ensures CellOf(s'.servers[j].vars, k) == Cell(At(s'.totals, k), CellOf(s0.servers[j].vars, k).between, 0.0)
    {
      assert k in sums;
    }
  }

  lemma {:induction false} QuietStep(s0: System, s: System, e: Event)
    requires InRound(s0, s) && s0.phase.Rest? && !e.Update?
    ensures InRound(s0, Step(s, e)) || RoundDone(s0, Step(s, e))
    ensures s.phase.Distributing? && Step(s, e).phase.Rest? ==> RoundDone(s0, Step(s, e))
  {
    match e
    case Get(i) =>
    case Merge =>
    case Set(i) =>
      if i < |s.servers| && s.phase.Distributing? && i !in s.phase.done && Everyone(s, s.phase.done + {i}) {
        SetFinishesRound(s0, s, i);
      }
    case _ =>
  }

  /** One get/set round without updates, the servers being visited in any order. */
  ghost predicate QuietRound(s0: System, es: seq<Event>) {
    && es != [] && s0.phase.Rest?
    && (forall e :: e in es ==> !e.Update?)
    && (forall m :: 0 <= m < |es| && Run(s0, es[..m]).phase.Rest? ==> Run(s0, es[..m]) == s0)
    && !Run(s0, es[..|es| - 1]).phase.Rest? && Run(s0, es).phase.Rest?
  }

  lemma {:induction false} QuietPrefix(s0: System, es: seq<Event>, n: nat)
    requires QuietRound(s0, es) && n < |es|
    ensures InRound(s0, Run(s0, es[..n]))
  {
    if n > 0 {
      QuietPrefix(s0, es, n - 1);
      assert es[..n][..n - 1] == es[..n - 1] && es[n - 1] in es;
      QuietStep(s0, Run(s0, es[..n - 1]), es[n - 1]);
      assert Run(s0, es[..n]).phase.Rest? ==> Run(s0, es[..n]) == s0;
    }
  }

  lemma {:induction false} QuietRoundDone(s0: System, es: seq<Event>)
    requires QuietRound(s0, es)
    ensures RoundDone(s0, Run(s0, es))
  {
    var n := |es| - 1;
    QuietPrefix(s0, es, n);
    assert es[n] in es;
    QuietStep(s0, Run(s0, es[..n]), es[n]);
    var s := Run(s0, es[..n]);
    assert es[n].Set? && s.phase.Distributing?;
  }

  lemma {:induction false} RunKeepsInv(s: System, es: seq<Event>)
    requires Inv(s)
    ensures Inv(Run(s, es))
    decreases |es|
  {
    if es != [] {
      RunKeepsInv(s, es[..|es| - 1]);
      StepKeepsInv(Run(s, es[..|es| - 1]), es[|es| - 1]);
    }
  }

  lemma {:induction false} AllCollected(servers: seq<Server>, k: string)
    requires forall i :: 0 <= i < |servers| ==> Uncollected(servers[i], k) == 0.0
    ensures SumUncollected(servers, k) == 0.0
  {
    if servers != [] {
      AllCollected(servers[..|servers| - 1], k);
    }
  }

  /** After two rounds without updates, every server reads the sum of all updates ever made. */
  lemma {:induction false} TwoQuietRoundsConverge(s0: System, first: seq<Event>, second: seq<Event>, i: nat, k: string)
    requires Inv(s0) && QuietRound(s0, first) && QuietRound(Run(s0, first), second)
    requires i < |s0.servers|
    ensures var s := Run(Run(s0, first), second);
            && s.applied == s0.applied && |s.servers| == |s0.servers|
            && Reading(CellOf(s.servers[i].vars, k)) == At(s.applied, k)
  {
    var s1 := Run(s0, first);
    var s2 := Run(s1, second);
    QuietRoundDone(s0, first);
    QuietRoundDone(s1, second);
    RunKeepsInv(s0, first);
    RunKeepsInv(s1, second);
    if exists j :: 0 <= j < |s2.servers| && k in s2.servers[j].vars {
      forall m | 0 <= m < |s2.servers| ensures CellOf(s2.servers[m].vars, k) == Cell(At(s2.totals, k), 0.0, 0.0) {
        assert k in s1.servers[m].vars ==>
          CellOf(s1.servers[m].vars, k) == Cell(At(s1.totals, k), CellOf(s0.servers[m].vars, k).between, 0.0);
      }
    }
    forall m | 0 <= m < |s2.servers| ensures Uncollected(s2.servers[m], k) == 0.0 {
    }
    AllCollected(s2.servers, k);
    assert Conserved(s2, k);
  }

  // ---------------------------------------------------------------- what one round achieves

  function SumBetween(servers: seq<Server>, k: string): real {
    if servers == [] then 0.0
    else SumBetween(servers[..|servers| - 1], k) + CellOf(servers[|servers| - 1].vars, k).between
  }

  lemma {:induction false} BetweenIsLeft(before: seq<Server>, after: seq<Server>, k: string)
    requires |before| == |after|
    requires forall i :: 0 <= i < |after| ==> Uncollected(after[i], k) == CellOf(before[i].vars, k).between
    ensures SumUncollected(after, k) == SumBetween(before, k)
  {
    if after != [] {
      BetweenIsLeft(before[..|before| - 1], after[..|after| - 1], k);
    }
  }

  /** After one round without updates a server reads everything except what was `between` on
      the other servers when the round began.  So one round is enough exactly when there is
      nothing of the kind, and a variable created between a get and a set needs a second. */
  lemma {:induction false} OneQuietRound(s0: System, es: seq<Event>, i: nat, k: string)
    requires Inv(s0) && QuietRound(s0, es) && i < |s0.servers|
    ensures var s := Run(s0, es);
            && |s.servers| == |s0.servers|
            && Reading(CellOf(s.servers[i].vars, k))
               == At(s.applied, k) - SumBetween(s0.servers, k) + CellOf(s0.servers[i].vars, k).between
  {
    var s := Run(s0, es);
    QuietRoundDone(s0, es);
    RunKeepsInv(s0, es);
    assert Conserved(s, k);
    forall m | 0 <= m < |s.servers| ensures Uncollected(s.servers[m], k) == CellOf(s0.servers[m].vars, k).between {
      assert k in s0.servers[m].vars ==> k in s.servers[m].vars;
    }
    BetweenIsLeft(s0.servers, s.servers, k);
    assert k in s0.servers[i].vars ==> k in s.servers[i].vars;
  }

  /** Filters have updated variables only while no round was under way. */
  ghost predicate UpdatesAtRest(s: System, es: seq<Event>) {
    forall m :: 0 <= m < |es| && es[m].Update? ==> Run(s, es[..m]).phase.Rest?
  }

  ghost predicate NothingBetween(s: System) {
    forall i, k :: 0 <= i < |s.servers| ==> CellOf(s.servers[i].vars, k).between == 0.0
  }

  lemma {:induction false} RestKeepsNothingBetween(s: System, e: Event)
    requires Inv(s) && NothingBetween(s) && (e.Update? ==> s.phase.Rest?)
    ensures NothingBetween(Step(s, e))
  {
    var s' := Step(s, e);
    forall i, k | 0 <= i < |s'.servers| ensures CellOf(s'.servers[i].vars, k).between == 0.0 {
      assert CellOf(s.servers[i].vars, k).between == 0.0;
      assert s.phase.Rest? ==> !s.servers[i].between;
      UpdateGains(s.servers[i].vars, if e.Update? then e.values else map[], s.servers[i].between);
    }
  }

  lemma {:induction false} RestLeavesNothingBetween(n: nat, es: seq<Event>)
    requires UpdatesAtRest(Start(n), es)
    ensures NothingBetween(Run(Start(n), es))
    decreases |es|
  {
    if es != [] {
      var m := |es| - 1;
      forall l | 0 <= l < m && es[..m][l].Update? ensures Run(Start(n), es[..m][..l]).phase.Rest? {
        assert es[..m][..l] == es[..l];
      }
      RestLeavesNothingBetween(n, es[..m]);
      Conservation(n, es[..m], "");
      RestKeepsNothingBetween(Run(Start(n), es[..m]), es[m]);
    }
  }

  lemma {:induction false} NothingToSum(servers: seq<Server>, k: string)
    requires forall i :: 0 <= i < |servers| ==> CellOf(servers[i].vars, k).between == 0.0
    ensures SumBetween(servers, k) == 0.0
  {
    if servers != [] {
      NothingToSum(servers[..|servers| - 1], k);
    }
  }

  /** If no update ever falls into a round, one round is enough: after it every server reads the sum
      of all updates. */
  lemma {:induction false} OneRoundIsEnoughAtRest(n: nat, es: seq<Event>, round: seq<Event>, i: nat, k: string)
    requires UpdatesAtRest(Start(n), es) && QuietRound(Run(Start(n), es), round)
    requires i < |Run(Start(n), es).servers|
    ensures var s := Run(Run(Start(n), es), round);
            |s.servers| > i && Reading(CellOf(s.servers[i].vars, k)) == At(s.applied, k)
  {
    var s0 := Run(Start(n), es);
    Conservation(n, es, k);
    RestLeavesNothingBetween(n, es);
    NothingToSum(s0.servers, k);
    OneQuietRound(s0, round, i, k);
  }

  // ---------------------------------------------------------------- against the document

  /** Server i stays between get and set throughout es. */
  ghost predicate StaysBetween(s: System, es: seq<Event>, i: nat) {
    forall m :: 0 <= m <= |es| ==> i < |Run(s, es[..m]).servers| && Run(s, es[..m]).servers[i].between
  }

  /** Between get and set a variable changes in its `between` part only. */
  lemma {:induction false} OnlyBetweenGrows(s: System, es: seq<Event>, i: nat, k: string)
    requires StaysBetween(s, es, i)
    ensures i < |s.servers| && i < |Run(s, es).servers|
    ensures var before, after := CellOf(s.servers[i].vars, k), CellOf(Run(s, es).servers[i].vars, k);
            after.globalVal == before.globalVal && after.localVal == before.localVal
    decreases |es|
  {
    assert es[..|es|] == es && es[..0] == [];
    assert Run(s, es[..0]) == s;
    if es != [] {
      var n := |es| - 1;
      forall m | 0 <= m <= n ensures es[..n][..m] == es[..m] {
      }
      assert StaysBetween(s, es[..n], i);
      OnlyBetweenGrows(s, es[..n], i, k);
      BetweenStep(Run(s, es[..n]), es[n], i, k);
    }
  }

  lemma {:induction false} BetweenStep(s: System, e: Event, i: nat, k: string)
    requires i < |s.servers| && s.servers[i].between
    requires i < |Step(s, e).servers| && Step(s, e).servers[i].between
    ensures var before, after := CellOf(s.servers[i].vars, k), CellOf(Step(s, e).servers[i].vars, k);
            after.globalVal == before.globalVal && after.localVal == before.localVal
  {
    match e
    case Update(j, values) =>
    case Get(j) =>
    case Merge =>
    case Set(j) =>
  }

  /** The protocol document asks that a set give a variable the value sent plus what it gained
      since the last get.  In any run from that get to the set, the code does so exactly when the
      variable had nothing in its `between` part at the get. */
  lemma {:induction false} SetMeetsDocumentExactly(s: System, es: seq<Event>, i: nat, k: string)
    requires i < |s.servers| && StaysBetween(Step(s, Get(i)), es, i)
    requires var r := Run(Step(s, Get(i)), es);
             r.phase.Distributing? && i !in r.phase.done && k in r.phase.sums
    ensures var r := Run(Step(s, Get(i)), es);
            var atGet, atSet := CellOf(s.servers[i].vars, k), CellOf(r.servers[i].vars, k);
            var after := CellOf(Step(r, Set(i)).servers[i].vars, k);
            Reading(after) == r.phase.sums[k] + (Reading(atSet) - Reading(atGet)) <==> atGet.between == 0.0
  {
    OnlyBetweenGrows(Step(s, Get(i)), es, i, k);
    GetKeepsCells(s, i, k);
    SetCell(Run(Step(s, Get(i)), es), i, k);
  }

  lemma {:induction false} GetKeepsCells(s: System, i: nat, k: string)
    requires i < |s.servers|
    ensures i < |Step(s, Get(i)).servers| && CellOf(Step(s, Get(i)).servers[i].vars, k) == CellOf(s.servers[i].vars, k)
  {
  }

  lemma {:induction false} SetCell(s: System, i: nat, k: string)
    requires i < |s.servers| && s.phase.Distributing? && i !in s.phase.done && k in s.phase.sums
    ensures i < |Step(s, Set(i)).servers|
    ensures CellOf(Step(s, Set(i)).servers[i].vars, k) == Cell(s.phase.sums[k], CellOf(s.servers[i].vars, k).between, 0.0)
  {
  }

  // ---------------------------------------------------------------- one round is not enough

  ghost predicate Trace(states: seq<System>, es: seq<Event>) {
    && |states| == |es| + 1
    && forall i :: 0 <= i < |es| ==> Step(states[i], es[i]) == states[i + 1]
  }

  lemma {:induction false} TraceRuns(states: seq<System>, es: seq<Event>, n: nat)
    requires Trace(states, es) && n <= |es|
    ensures Run(states[0], es[..n]) == states[n]
  {
    if n > 0 {
      TraceRuns(states, es, n - 1);
      assert es[..n][..n - 1] == es[..n - 1];
    }
  }

  /** Two servers, of which the first holds cell c of k. */
  function Pair(c: Cell, first: bool, second: bool): seq<Server> {
    [Server(map["k" := c], first), Server(map[], second)]
  }

  /** A round that begins before k exists; a filter makes k on the first server meanwhile. */
  function FirstRound(): seq<Event> {
    [Get(0), Get(1), Update(0, map["k" := 1.0]), Merge, Set(0), Set(1)]
  }

  function NextRound(): seq<Event> {
    [Get(0), Get(1), Merge, Set(0), Set(1)]
  }

  /** After the first round everything is between on the first server. */
  function Between(): System {
    System(Pair(Cell(0.0, 0.0, 1.0), false, false), Rest, map[], map["k" := 1.0])
  }

  const MADE := Cell(0.0, 0.0, 1.0)
  const MOVED := Server(map["k" := Cell(0.0, 1.0, 0.0)], false)
  const CLEAR := Server(map["k" := Cell(0.0, 0.0, 0.0)], false)
  const ONE := map["k" := 1.0]
  const ZERO := map["k" := 0.0]

  /** The states of the first round. */
  function First(n: nat): System {
    if n == 0 then Start(2)
    else if n == 1 then System([Server(map[], true), Server(map[], false)], Collecting({0}, map[]), map[], map[])
    else if n == 2 then System([Server(map[], true), Server(map[], true)], Collecting({0, 1}, map[]), map[], map[])
    else if n == 3 then System(Pair(MADE, true, true), Collecting({0, 1}, map[]), map[], ONE)
    else if n == 4 then System(Pair(MADE, true, true), Distributing({}, map[]), map[], ONE)
    else if n == 5 then System(Pair(MADE, false, true), Distributing({0}, map[]), map[], ONE)
    else Between()
  }

  /** And of the next, in which no filter updates anything. */
  function Next(n: nat): System {
    if n == 0 then Between()
    else if n == 1 then System(Pair(MADE, true, false), Collecting({0}, ZERO), map[], ONE)
    else if n == 2 then System(Pair(MADE, true, true), Collecting({0, 1}, ZERO), map[], ONE)
    else if n == 3 then System(Pair(MADE, true, true), Distributing({}, ZERO), ZERO, ONE)
    else if n == 4 then System([MOVED, Server(map[], true)], Distributing({0}, ZERO), ZERO, ONE)
    else System([MOVED, CLEAR], Rest, ZERO, ONE)
  }

  lemma {:induction false} FirstGets()
    ensures Step(First(0), Get(0)) == First(1) && Step(First(1), Get(1)) == First(2)
  {
    assert Plus(map[], map[]) == map[] && Locals(map[]) == map[];
    assert First(0).servers == [Server(map[], false), Server(map[], false)];
    assert First(0).servers[0 := Server(map[], true)] == First(1).servers;
    assert First(1).servers[1 := Server(map[], true)] == First(2).servers;
    assert {0} + {1} == {0, 1} && {} + {0} == {0};
  }

  lemma {:induction false} FirstUpdate()
    ensures Step(First(2), Update(0, ONE)) == First(3)
  {
    assert Plus(map[], ONE) == ONE;
    assert UpdateAll(map[], ONE, true) == map["k" := MADE];
    assert First(2).servers[0 := Server(map["k" := MADE], true)] == First(3).servers;
  }

  lemma {:induction false} FirstMerge()
    ensures Step(First(3), Merge) == First(4)
  {
    assert Plus(map[], map[]) == map[];
  }

  lemma {:induction false} FirstSets()
    ensures Step(First(4), Set(0)) == First(5) && Step(First(5), Set(1)) == First(6)
  {
    assert SetAll(map["k" := MADE], map[]) == map["k" := MADE] && SetAll(map[], map[]) == map[];
    assert First(4).servers[0 := Server(map["k" := MADE], false)] == First(5).servers;
    assert First(5).servers[1 := Server(map[], false)] == First(6).servers;
    var done: set<nat> := {};
    assert done + {0} == {0} && 1 !in done + {0};
    assert !Everyone(First(4), done + {0});
    assert Everyone(First(5), {0} + {1});
  }

  lemma {:induction false} NextGets()
    ensures Step(Next(0), Get(0)) == Next(1) && Step(Next(1), Get(1)) == Next(2)
  {
    assert Locals(map["k" := MADE]) == ZERO && Locals(map[]) == map[];
    assert Plus(map[], ZERO) == ZERO && Plus(ZERO, map[]) == ZERO;
    assert Next(0).servers[0 := Server(map["k" := MADE], true)] == Next(1).servers;
    assert Next(1).servers[1 := Server(map[], true)] == Next(2).servers;
    assert {0} + {1} == {0, 1} && {} + {0} == {0};
  }

  lemma {:induction false} NextMerge()
    ensures Step(Next(2), Merge) == Next(3)
  {
    assert Plus(map[], ZERO) == ZERO;
    assert (map k | k in ZERO :: ZERO[k]) == ZERO;
  }

  lemma {:induction false} NextSets()
    ensures Step(Next(3), Set(0)) == Next(4) && Step(Next(4), Set(1)) == Next(5)
  {
    assert SetAll(map["k" := MADE], ZERO) == MOVED.vars && SetAll(map[], ZERO) == CLEAR.vars;
    assert Next(3).servers[0 := MOVED] == Next(4).servers;
    assert Next(4).servers[1 := CLEAR] == Next(5).servers;
    var done: set<nat> := {};
    assert done + {0} == {0} && 1 !in done + {0};
    assert !Everyone(Next(3), done + {0});
    assert Everyone(Next(4), {0} + {1});
  }

  lemma {:induction false} FirstRun()
    ensures Run(Start(2), FirstRound()) == Between()
  {
    FirstGets();
    FirstUpdate();
    FirstMerge();
    FirstSets();
    var states := [First(0), First(1), First(2), First(3), First(4), First(5), First(6)];
    TraceRuns(states, FirstRound(), 6);
    assert FirstRound()[..6] == FirstRound();
  }

  lemma {:induction false} NextRun(n: nat)
    requires n <= 5
    ensures Run(Between(), NextRound()[..n]) == Next(n)
  {
    NextGets();
    NextMerge();
    NextSets();
    var states := [Next(0), Next(1), Next(2), Next(3), Next(4), Next(5)];
    TraceRuns(states, NextRound(), n);
  }

  /** From the start: a variable made between a get and a set is still unknown to the other server
      after a whole round without updates. */
  lemma {:induction false} OneRoundIsNotEnough()
    ensures var s := Run(Start(2), FirstRound());
            && QuietRound(s, NextRound())
            && Run(s, NextRound()).applied == map["k" := 1.0]
            && |Run(s, NextRound()).servers| == 2
            && Reading(CellOf(Run(s, NextRound()).servers[1].vars, "k")) == 0.0
  {
    FirstRun();
    forall n | 0 <= n <= 5 ensures Run(Between(), NextRound()[..n]) == Next(n) {
      NextRun(n);
    }
    assert NextRound()[..5] == NextRound() && NextRound()[..|NextRound()| - 1] == NextRound()[..4];
  }

  /** And in that round the set on the first server does not do what the document asks: k gained
      nothing since the get and is sent as 0, yet it reads 1, the sum of all updates. */
  lemma {:induction false} SetDisagrees()
    ensures var s := Run(Start(2), FirstRound());
            var r := Run(Step(s, Get(0)), [Get(1), Merge]);
            && |s.servers| == |r.servers| == |Step(r, Set(0)).servers| == 2
            && StaysBetween(Step(s, Get(0)), [Get(1), Merge], 0) && r.phase.Distributing? && "k" in r.phase.sums
            && r.phase.sums["k"] == 0.0
            && Reading(CellOf(r.servers[0].vars, "k")) == Reading(CellOf(s.servers[0].vars, "k"))
            && Reading(CellOf(Step(r, Set(0)).servers[0].vars, "k")) == 1.0
  {
    FirstRun();
    NextGets();
    NextMerge();
    NextSets();
    var es := [Get(1), Merge];
    var states := [Next(1), Next(2), Next(3)];
    forall n | 0 <= n <= 2 ensures Run(Next(1), es[..n]) == states[n] {
      TraceRuns(states, es, n);
    }
    assert es[..2] == es;
  }
}
