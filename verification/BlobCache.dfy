/** The blob cache: lock-free accesses, additions and one two-pass pruner, interleaved at
    system-call granularity over one directory. */
module BlobCache {
  import opened Wrappers

  type Data = string

  /** SHA-256 is taken as collision free. */
  datatype Sig = Sha256(data: Data)

  /** The names in the cache directory; GC_SUFFIX distinguishes the doomed ones.  mkstemp
      never reuses a name, so a temporary name identifies the file it was made for. */
  datatype Name = Blob(sig: Sig) | BlobGc(sig: Sig) | Temp(inode: nat) | TempGc(inode: nat) {
    predicate Gc() { BlobGc? || TempGc? }

    function WithSuffix(): Name
      requires !Gc()
    {
      if Blob? then BlobGc(sig) else TempGc(inode)
    }
  }

  datatype File = File(mtime: int, data: Data)

  datatype Disk = Disk(dir: map<Name, nat>, files: map<nat, File>, clock: int) {
    predicate Valid() {
      forall n :: n in dir ==> dir[n] in files
    }

    function MTime(n: Name): int
      requires Valid() && n in dir
    {
      files[dir[n]].mtime
    }
  }

  // ---------------------------------------------------------------- system calls

  /** Each answers None for OSError. */
  function Utime(d: Disk, n: Name): Option<Disk>
    requires d.Valid()
  {
    if n !in d.dir then None
    else Some(d.(files := d.files[d.dir[n] := d.files[d.dir[n]].(mtime := d.clock)]))
  }

  /** rename() replaces the target. */
  function Rename(d: Disk, from: Name, to: Name): Option<Disk>
    requires from != to
  {
    if from !in d.dir then None
    else Some(d.(dir := (d.dir - {from})[to := d.dir[from]]))
  }

  function Unlink(d: Disk, n: Name): Disk {
    d.(dir := d.dir - {n})
  }

  /** link() does not replace the target. */
  function Link(d: Disk, from: Name, to: Name): Disk {
    if from !in d.dir || to in d.dir then d else d.(dir := d.dir[to := d.dir[from]])
  }

  // ---------------------------------------------------------------- processes

  datatype Pruner =
    | Resting
    | Mark(expires: int, todo: set<Name>)                   // first loop
    | MarkRename(expires: int, todo: set<Name>, name: Name) // stat() said expired
    | Sweep(expires: int, todo: set<Name>)                  // second loop
    | SweepUnlink(expires: int, todo: set<Name>, name: Name)

  /** A thread in __getitem__, before the system call named; `at` is when _access succeeded. */
  datatype Client =
    | Idle
    | Touch(sig: Sig)
    | TouchRescue(sig: Sig)
    | TouchAgain(sig: Sig)
    | Open(sig: Sig, at: int)
    | OpenRescue(sig: Sig, at: int)
    | OpenAgain(sig: Sig, at: int)
    | Got(sig: Sig, data: Data)
    | Missing(sig: Sig)   // KeyError
    | Failed(sig: Sig)    // IOError from the second open

  /** A thread in add(), before the system call named. */
  datatype Adder =
    | NotAdding
    | AddWrite(inode: nat, data: Data)
    | AddLink(inode: nat, data: Data)
    | AddUnlink(inode: nat)

  datatype State = State(disk: Disk, pruner: Pruner, clients: map<nat, Client>, adders: map<nat, Adder>) {
    function Client(c: nat): Client { if c in clients then clients[c] else Idle }
    function Adder(a: nat): Adder { if a in adders then adders[a] else NotAdding }
  }

  /** One atomic step; the arguments are the choices of the outside world.  A step whose
      process is not ready for it does nothing. */
  datatype Event =
    | Tick(seconds: nat)
    | PruneStart(maxAge: nat, listing: set<Name>)
    | PruneStat(name: Name)
    | PruneAct
    | PruneSweep(listing: set<Name>)
    | PruneEnd
    | ClientStart(c: nat, sig: Sig)
    | ClientCall(c: nat)
    | ClientLeave(c: nat)   // after __contains__, or when done
    | AddStart(a: nat, inode: nat, data: Data)
    | AddCall(a: nat)

  function Step(s: State, e: Event): State
    requires s.disk.Valid()
  {
    match e
    case Tick(seconds) => s.(disk := s.disk.(clock := s.disk.clock + seconds))
    case PruneStart(maxAge, listing) =>
      if s.pruner.Resting? && (forall n :: n in listing ==> !n.Gc())
      then s.(pruner := Mark(s.disk.clock - maxAge, listing)) else s
    case PruneStat(name) => s.(pruner := StatNext(s.disk, s.pruner, name))
    case PruneAct => Act(s)
    case PruneSweep(listing) =>
      if s.pruner.Mark? && s.pruner.todo == {} && (forall n :: n in listing ==> n.Gc())
      then s.(pruner := Sweep(s.pruner.expires, listing)) else s
    case PruneEnd =>
      if s.pruner.Sweep? && s.pruner.todo == {} then s.(pruner := Resting) else s
    case ClientStart(c, sig) =>
      if s.Client(c).Idle? then s.(clients := s.clients[c := Touch(sig)]) else s
    case ClientCall(c) => Call(s, c)
    case ClientLeave(c) =>
      if s.Client(c).Open? || s.Client(c).Got? || s.Client(c).Missing? || s.Client(c).Failed?
      then s.(clients := s.clients[c := Idle]) else s
    case AddStart(a, inode, data) =>
      if s.Adder(a).NotAdding? && inode !in s.disk.files then Create(s, a, inode, data) else s
    case AddCall(a) => Add(s, a)
  }

  function StatNext(d: Disk, p: Pruner, name: Name): Pruner
    requires d.Valid()
  {
    if p.Mark? && name in p.todo then
      if name in d.dir && d.MTime(name) < p.expires
      then MarkRename(p.expires, p.todo - {name}, name) else Mark(p.expires, p.todo - {name})
    else if p.Sweep? && name in p.todo then
      if name in d.dir && d.MTime(name) < p.expires
      then SweepUnlink(p.expires, p.todo - {name}, name) else Sweep(p.expires, p.todo - {name})
    else p
  }

  function Act(s: State): State {
    match s.pruner
    case MarkRename(expires, todo, name) =>
      var pruner := Mark(expires, todo);
      if name.Gc() then s.(pruner := pruner)  // never listed
      else
        (match Rename(s.disk, name, name.WithSuffix())
         case Some(disk) => s.(disk := disk, pruner := pruner)
         case None => s.(pruner := pruner))
    case SweepUnlink(expires, todo, name) => s.(disk := Unlink(s.disk, name), pruner := Sweep(expires, todo))
    case _ => s
  }

  /** _access() and then open(), each tried twice with a rescue between. */
  function Call(s: State, c: nat): State
    requires s.disk.Valid()
  {
    match s.Client(c)
    case Touch(sig) =>
      (match Utime(s.disk, Blob(sig))
       case Some(disk) => s.(disk := disk, clients := s.clients[c := Open(sig, disk.clock)])
       case None => s.(clients := s.clients[c := TouchRescue(sig)]))
    case TouchRescue(sig) => Rescue(s, sig).(clients := s.clients[c := TouchAgain(sig)])
    case TouchAgain(sig) =>
      (match Utime(s.disk, Blob(sig))
       case Some(disk) => s.(disk := disk, clients := s.clients[c := Open(sig, disk.clock)])
       case None => s.(clients := s.clients[c := Missing(sig)]))
    case Open(sig, at) =>
      s.(clients := s.clients[c := if Blob(sig) in s.disk.dir then Got(sig, s.disk.files[s.disk.dir[Blob(sig)]].data)
                                   else OpenRescue(sig, at)])
    case OpenRescue(sig, at) => Rescue(s, sig).(clients := s.clients[c := OpenAgain(sig, at)])
    case OpenAgain(sig, at) =>
      s.(clients := s.clients[c := if Blob(sig) in s.disk.dir then Got(sig, s.disk.files[s.disk.dir[Blob(sig)]].data)
                                   else Failed(sig)])
    case _ => s
  }

  function Rescue(s: State, sig: Sig): State {
    match Rename(s.disk, BlobGc(sig), Blob(sig))
    case Some(disk) => s.(disk := disk)
    case None => s
  }

  /** mkstemp(): a new, empty file under a new name. */
  function Create(s: State, a: nat, inode: nat, data: Data): State {
    s.(disk := s.disk.(dir := s.disk.dir[Temp(inode) := inode], files := s.disk.files[inode := File(s.disk.clock, "")]),
       adders := s.adders[a := AddWrite(inode, data)])
  }

  function Add(s: State, a: nat): State {
    match s.Adder(a)
    case AddWrite(inode, data) =>
      s.(disk := s.disk.(files := s.disk.files[inode := File(s.disk.clock, data)]),
         adders := s.adders[a := AddLink(inode, data)])
    case AddLink(inode, data) =>
      s.(disk := Link(s.disk, Temp(inode), Blob(Sha256(data))), adders := s.adders[a := AddUnlink(inode)])
    case AddUnlink(inode) =>
      s.(disk := Unlink(s.disk, Temp(inode)), adders := s.adders[a := NotAdding])
    case NotAdding => s
  }

  // ---------------------------------------------------------------- what every step keeps

  predicate OfBlob(n: Name) { n.Blob? || n.BlobGc? }

  /** The content of every blob hashes to its name, and no two blob names share a file. */
  ghost predicate DirInv(d: Disk) {
    && d.Valid()
    && (forall n, m :: n in d.dir && m in d.dir && OfBlob(n) && OfBlob(m) && d.dir[n] == d.dir[m] ==> n == m)
    && (forall n :: n in d.dir && OfBlob(n) ==> Sha256(d.files[d.dir[n]].data) == n.sig)
    && (forall i :: Temp(i) in d.dir ==> d.dir[Temp(i)] == i)
  }

  /** The file of an addition is its own until it is linked, and then it is complete. */
  ghost predicate AdderInv(d: Disk, x: Adder) {
    x.AddWrite? || x.AddLink? ==>
      && x.inode in d.files
      && (forall n :: n in d.dir && OfBlob(n) ==> d.dir[n] != x.inode)
      && (x.AddLink? ==> d.files[x.inode].data == x.data)
  }

  ghost predicate PrunerInv(d: Disk, p: Pruner) {
    && (p.MarkRename? ==> !p.name.Gc())
    && (!p.Resting? ==> p.expires <= d.clock)
    && (p.Mark? || p.MarkRename? ==> forall n :: n in p.todo ==> !n.Gc())
    && (p.Sweep? || p.SweepUnlink? ==> forall n :: n in p.todo ==> n.Gc())
    && (p.SweepUnlink? ==> p.name.Gc())
    && (p.SweepUnlink? && OfBlob(p.name) && p.name in d.dir ==> d.Valid() && d.MTime(p.name) < p.expires)
  }

  ghost predicate Inv(s: State) {
    && DirInv(s.disk)
    && (forall a :: AdderInv(s.disk, s.Adder(a)))
    && (forall a, b :: a != b && Unlinked(s.Adder(a)) && Unlinked(s.Adder(b)) ==> s.Adder(a).inode != s.Adder(b).inode)
    && PrunerInv(s.disk, s.pruner)
    && (forall c :: s.Client(c).Got? ==> Sha256(s.Client(c).data) == s.Client(c).sig)
  }

  predicate Unlinked(x: Adder) { x.AddWrite? || x.AddLink? }

  lemma {:induction false} RescueKeepsInv(s: State, sig: Sig)
    requires Inv(s)
    ensures Inv(Rescue(s, sig))
  {
    var s' := Rescue(s, sig);
    forall a ensures AdderInv(s'.disk, s'.Adder(a)) {
      assert AdderInv(s.disk, s.Adder(a));
    }
    assert forall c :: s'.Client(c) == s.Client(c);
    assert forall a :: s'.Adder(a) == s.Adder(a);
  }

  lemma {:induction false} TouchKeepsInv(s: State, sig: Sig)
    requires Inv(s) && Blob(sig) in s.disk.dir
    ensures Inv(s.(disk := Utime(s.disk, Blob(sig)).value))
  {
    var s' := s.(disk := Utime(s.disk, Blob(sig)).value);
    forall a ensures AdderInv(s'.disk, s'.Adder(a)) {
      assert AdderInv(s.disk, s.Adder(a));
    }
    assert forall c :: s'.Client(c) == s.Client(c);
    assert forall a :: s'.Adder(a) == s.Adder(a);
  }

  lemma {:induction false} CallKeepsInv(s: State, c: nat)
    requires Inv(s)
    ensures Inv(Call(s, c))
  {
    var x := s.Client(c);
    var s' := Call(s, c);
    var d := s'.disk;
    var mid := s.(disk := d);
    assert Inv(mid) by {
      if (x.Touch? || x.TouchAgain?) && Blob(x.sig) in s.disk.dir {
        TouchKeepsInv(s, x.sig);
      } else if x.TouchRescue? || x.OpenRescue? {
        RescueKeepsInv(s, x.sig);
        assert mid == Rescue(s, x.sig);
      } else {
        assert mid == s;
      }
    }
    assert forall a :: s'.Adder(a) == mid.Adder(a);
    assert forall b :: b != c ==> s'.Client(b) == mid.Client(b);
    forall a ensures AdderInv(s'.disk, s'.Adder(a)) {
      assert AdderInv(mid.disk, mid.Adder(a));
    }
  }

  lemma {:induction false} ActKeepsInv(s: State)
    requires Inv(s)
    ensures Inv(Act(s))
  {
    var s' := Act(s);
    forall a ensures AdderInv(s'.disk, s'.Adder(a)) {
      assert AdderInv(s.disk, s.Adder(a));
    }
    assert forall a :: s'.Adder(a) == s.Adder(a);
    assert forall c :: s'.Client(c) == s.Client(c);
  }

  lemma {:induction false} AddKeepsInv(s: State, a: nat)
    requires Inv(s)
    ensures Inv(Add(s, a))
  {
    var s' := Add(s, a);
    assert AdderInv(s.disk, s.Adder(a));
    assert forall b :: b != a ==> s'.Adder(b) == s.Adder(b);
    assert Unlinked(s'.Adder(a)) ==> Unlinked(s.Adder(a)) && s'.Adder(a).inode == s.Adder(a).inode;
    forall b ensures AdderInv(s'.disk, s'.Adder(b)) {
      assert AdderInv(s.disk, s.Adder(b));
      assert b != a ==> s'.Adder(b) == s.Adder(b);
    }
    assert forall c :: s'.Client(c) == s.Client(c);
  }

  lemma {:induction false} CreateKeepsInv(s: State, a: nat, inode: nat, data: Data)
    requires Inv(s) && s.Adder(a).NotAdding? && inode !in s.disk.files
    ensures Inv(Create(s, a, inode, data))
  {
    var s' := Create(s, a, inode, data);
    forall b ensures AdderInv(s'.disk, s'.Adder(b)) {
      assert AdderInv(s.disk, s.Adder(b));
      assert b != a ==> s'.Adder(b) == s.Adder(b);
    }
    forall b, c | b != c && Unlinked(s'.Adder(b)) && Unlinked(s'.Adder(c))
      ensures s'.Adder(b).inode != s'.Adder(c).inode
    {
      assert AdderInv(s.disk, s.Adder(b)) && AdderInv(s.disk, s.Adder(c));
    }
    assert forall c :: s'.Client(c) == s.Client(c);
  }

  lemma {:induction false} StepKeepsInv(s: State, e: Event)
    requires Inv(s)
    ensures Inv(Step(s, e))
  {
    var s' := Step(s, e);
    match e
    case ClientCall(c) => CallKeepsInv(s, c);
    case PruneAct => ActKeepsInv(s);
    case AddCall(a) => AddKeepsInv(s, a);
    case AddStart(a, inode, data) =>
      if s.Adder(a).NotAdding? && inode !in s.disk.files {
        CreateKeepsInv(s, a, inode, data);
      }
    case _ =>
      assert forall a :: s'.Adder(a) == s.Adder(a);
      forall a ensures AdderInv(s'.disk, s'.Adder(a)) {
        assert AdderInv(s.disk, s.Adder(a));
      }
      assert forall c :: s'.Client(c).Got? ==> s'.Client(c) == s.Client(c);
  }

  // ---------------------------------------------------------------- whole runs

  /** Any interleaving: the state after the events so far. */
  ghost function Run(s: State, es: seq<Event>): (r: State)
    requires Inv(s)
    ensures Inv(r)
    decreases |es|
  {
    if es == [] then s
    else
      var before := Run(s, es[..|es| - 1]);
      StepKeepsInv(before, es[|es| - 1]);
      Step(before, es[|es| - 1])
  }

  /** prune() unlinks a blob only if it is expired at that very moment, not just when it was
      looked at. */
  lemma {:induction false} UnlinksOnlyExpired(s: State, es: seq<Event>)
    requires Inv(s)
    ensures var r := Run(s, es);
            r.pruner.SweepUnlink? && r.pruner.name.BlobGc? && r.pruner.name in r.disk.dir ==>
              r.disk.MTime(r.pruner.name) < r.pruner.expires
  {
  }

  predicate Has(d: Disk, sig: Sig) {
    Blob(sig) in d.dir || BlobGc(sig) in d.dir
  }

  /** A rename of a rescue, even one that replaces a file, loses no content. */
  lemma {:induction false} ClientsLoseNothing(s: State, c: nat, sig: Sig)
    requires Inv(s) && Has(s.disk, sig)
    ensures Has(Call(s, c).disk, sig)
  {
  }

  lemma {:induction false} AddersLoseNothing(s: State, a: nat, sig: Sig)
    requires Inv(s) && Has(s.disk, sig)
    ensures Has(Add(s, a).disk, sig)
  {
  }

  lemma {:induction false} PrunerLosesOnlyExpired(s: State, sig: Sig)
    requires Inv(s) && Has(s.disk, sig) && !Has(Act(s).disk, sig)
    ensures s.pruner.SweepUnlink? && s.pruner.name == BlobGc(sig)
    ensures BlobGc(sig) in s.disk.dir && s.disk.MTime(BlobGc(sig)) < s.pruner.expires && Blob(sig) !in s.disk.dir
  {
  }

  /** The content of a blob leaves the cache in no other way: not by a rename of the pruner or
      of a rescue, even one that replaces a file, and not by an addition. */
  lemma {:induction false} OnlyExpiredContentLeaves(s: State, es: seq<Event>, e: Event, sig: Sig)
    requires Inv(s)
    requires Has(Run(s, es).disk, sig) && !Has(Step(Run(s, es), e).disk, sig)
    ensures var r := Run(s, es);
            && e.PruneAct? && r.pruner.SweepUnlink? && r.pruner.name == BlobGc(sig)
            && BlobGc(sig) in r.disk.dir && r.disk.MTime(BlobGc(sig)) < r.pruner.expires
            && Blob(sig) !in r.disk.dir
  {
    var r := Run(s, es);
    match e
    case ClientCall(c) => ClientsLoseNothing(r, c, sig);
    case AddCall(a) => AddersLoseNothing(r, a, sig);
    case PruneAct => PrunerLosesOnlyExpired(r, sig);
    case _ =>
  }

  // ---------------------------------------------------------------- reading after a successful access

  predicate Opening(x: Client, sig: Sig) {
    (x.Open? || x.OpenRescue? || x.OpenAgain?) && x.sig == sig
  }

  predicate BothNames(d: Disk, sig: Sig) {
    Blob(sig) in d.dir && BlobGc(sig) in d.dir
  }

  /** Between a failed touch or open and the rename that may rescue the blob. */
  predicate Rescuing(x: Client, sig: Sig) {
    (x.TouchRescue? || x.OpenRescue?) && x.sig == sig
  }

  /** The copy that a reader gets, now or after a rescue, is at least as young as `at`. */
  predicate YoungCopy(d: Disk, sig: Sig, at: int)
    requires d.Valid()
  {
    if Blob(sig) in d.dir then d.MTime(Blob(sig)) >= at
    else BlobGc(sig) in d.dir && d.MTime(BlobGc(sig)) >= at
  }

  /** One opening of sig: its copy is as young as the access; once the rescue has been tried
      the copy is under its proper name and stays there. */
  ghost predicate OpeningInv(s: State, x: Client, sig: Sig)
    requires s.disk.Valid()
  {
    Opening(x, sig) ==>
      && x.at <= s.disk.clock
      && YoungCopy(s.disk, sig, x.at)
      && (!s.pruner.Resting? ==> s.pruner.expires <= x.at)
      && (!x.Open? ==> !(s.pruner.MarkRename? && s.pruner.name == Blob(sig)))
      && (x.OpenAgain? ==> Blob(sig) in s.disk.dir)
  }

  /** Nobody is adding sig, and every reading of it is in order so far. */
  ghost predicate Settled(s: State, sig: Sig) {
    && Inv(s)
    && (forall a :: Unlinked(s.Adder(a)) ==> Sha256(s.Adder(a).data) != sig)
    && (s.pruner.MarkRename? && s.pruner.name == Blob(sig) ==> Blob(sig) in s.disk.dir)
    && (forall c :: OpeningInv(s, s.Client(c), sig))
    && (forall c :: s.Client(c) != Failed(sig))
  }

  /** No rescue is under way while sig goes by both names: it would replace the live copy. */
  ghost predicate NoCrossing(s: State, sig: Sig) {
    BothNames(s.disk, sig) ==> forall c :: !Rescuing(s.Client(c), sig)
  }

  ghost predicate Calm(s: State, sig: Sig) {
    Settled(s, sig) && NoCrossing(s, sig)
  }

  /** What the theorem asks of the rest of the world: no addition of the same blob, and no
      prune that starts so late that the access already counts as expired. */
  ghost predicate Admissible(s: State, e: Event, sig: Sig) {
    && (e.AddStart? ==> Sha256(e.data) != sig)
    && (e.PruneStart? ==> forall c :: Opening(s.Client(c), sig) ==> s.disk.clock - e.maxAge <= s.Client(c).at)
  }

  ghost predicate AdmissibleRun(s: State, es: seq<Event>, sig: Sig)
    requires Inv(s)
    decreases |es|
  {
    es != [] ==>
      && AdmissibleRun(s, es[..|es| - 1], sig)
      && Admissible(Run(s, es[..|es| - 1]), es[|es| - 1], sig)
  }

  /** The disk changes, the processes do not. */
  lemma {:induction false} DiskKeepsCalm(s: State, d: Disk, sig: Sig)
    requires Calm(s, sig) && Inv(s.(disk := d))
    requires BothNames(d, sig) ==> BothNames(s.disk, sig)
    requires s.pruner.MarkRename? && s.pruner.name == Blob(sig) ==> Blob(sig) in d.dir
    requires forall c :: OpeningInv(s, s.Client(c), sig) ==> OpeningInv(s.(disk := d), s.Client(c), sig)
    ensures Calm(s.(disk := d), sig)
  {
    var s' := s.(disk := d);
    assert forall a :: s'.Adder(a) == s.Adder(a);
    assert forall c :: s'.Client(c) == s.Client(c);
  }

  lemma {:induction false} RescueKeepsCalm(s: State, other: Sig, sig: Sig)
    requires Calm(s, sig) && !(other == sig && BothNames(s.disk, sig))
    ensures Calm(Rescue(s, other), sig)
  {
    RescueKeepsInv(s, other);
    assert Rescue(s, other) == s.(disk := Rescue(s, other).disk);
    DiskKeepsCalm(s, Rescue(s, other).disk, sig);
  }

  lemma {:induction false} TouchKeepsCalm(s: State, other: Sig, sig: Sig)
    requires Calm(s, sig) && Blob(other) in s.disk.dir
    ensures Calm(s.(disk := Utime(s.disk, Blob(other)).value), sig)
  {
    TouchKeepsInv(s, other);
    DiskKeepsCalm(s, Utime(s.disk, Blob(other)).value, sig);
  }

  /** A client moves on, the rest does not change. */
  lemma {:induction false} ClientKeepsCalm(s: State, c: nat, x: Client, sig: Sig)
    requires Calm(s, sig) && OpeningInv(s, x, sig) && x != Failed(sig)
    requires x.Got? ==> Sha256(x.data) == x.sig
    requires BothNames(s.disk, sig) ==> !Rescuing(x, sig)
    ensures Calm(s.(clients := s.clients[c := x]), sig)
  {
    var s' := s.(clients := s.clients[c := x]);
    assert forall a :: s'.Adder(a) == s.Adder(a);
    forall a ensures AdderInv(s'.disk, s'.Adder(a)) {
      assert AdderInv(s.disk, s.Adder(a));
    }
    forall b ensures OpeningInv(s', s'.Client(b), sig) && s'.Client(b) != Failed(sig) {
      assert OpeningInv(s, s.Client(b), sig) && s.Client(b) != Failed(sig);
      assert b != c ==> s'.Client(b) == s.Client(b);
    }
    assert forall b :: b != c ==> s'.Client(b) == s.Client(b);
  }

  /** The disk after one call of a client keeps Calm, and so does the state the client enters. */
  lemma {:induction false} CallDiskKeepsCalm(s: State, c: nat, sig: Sig)
    requires Calm(s, sig)
    ensures Calm(s.(disk := Call(s, c).disk), sig)
  {
    var x := s.Client(c);
    var mid := s.(disk := Call(s, c).disk);
    if (x.Touch? || x.TouchAgain?) && Blob(x.sig) in s.disk.dir {
      TouchKeepsCalm(s, x.sig, sig);
    } else if x.TouchRescue? || x.OpenRescue? {
      assert x.sig == sig ==> Rescuing(x, sig);
      RescueKeepsCalm(s, x.sig, sig);
      assert mid == Rescue(s, x.sig);
    } else {
      assert mid == s;
    }
  }

  ghost predicate MayBecome(s: State, x: Client, sig: Sig)
    requires s.disk.Valid()
  {
    && OpeningInv(s, x, sig) && x != Failed(sig) && (x.Got? ==> Sha256(x.data) == x.sig)
    && (BothNames(s.disk, sig) ==> !Rescuing(x, sig))
  }

  /** What the two calls of an access lead to. */
  lemma {:induction false} AccessStaysCalm(s: State, c: nat, sig: Sig)
    requires Calm(s, sig) && Calm(s.(disk := Call(s, c).disk), sig)
    requires s.Client(c).Touch? || s.Client(c).TouchRescue? || s.Client(c).TouchAgain?
    ensures MayBecome(s.(disk := Call(s, c).disk), Call(s, c).Client(c), sig)
  {
    assert OpeningInv(s, s.Client(c), sig);
  }

  /** What the two opens and the rescue between them lead to. */
  lemma {:induction false} OpeningStaysCalm(s: State, c: nat, sig: Sig)
    requires Calm(s, sig) && Calm(s.(disk := Call(s, c).disk), sig) && Inv(Call(s, c))
    requires s.Client(c).Open? || s.Client(c).OpenRescue? || s.Client(c).OpenAgain?
    ensures MayBecome(s.(disk := Call(s, c).disk), Call(s, c).Client(c), sig)
  {
    var x, mid := s.Client(c), s.(disk := Call(s, c).disk);
    assert mid.Client(c) == x;
    assert OpeningInv(s, x, sig) && OpeningInv(mid, mid.Client(c), sig);
  }

  lemma {:induction false} CallKeepsCalm(s: State, c: nat, sig: Sig)
    requires Calm(s, sig)
    ensures Calm(Call(s, c), sig)
  {
    var x, x' := s.Client(c), Call(s, c).Client(c);
    var mid := s.(disk := Call(s, c).disk);
    CallDiskKeepsCalm(s, c, sig);
    CallKeepsInv(s, c);
    if x.Idle? || x.Got? || x.Missing? || x.Failed? {
      assert Call(s, c) == s;
    } else {
      assert Call(s, c) == mid.(clients := mid.clients[c := x']);
      if x.Touch? || x.TouchRescue? || x.TouchAgain? {
        AccessStaysCalm(s, c, sig);
      } else {
        OpeningStaysCalm(s, c, sig);
      }
      ClientKeepsCalm(mid, c, x', sig);
    }
  }

  lemma {:induction false} ActKeepsCalm(s: State, sig: Sig)
    requires Calm(s, sig)
    ensures Calm(Act(s), sig)
  {
    ActKeepsInv(s);
    var s' := Act(s);
    assert forall a :: s'.Adder(a) == s.Adder(a);
    assert forall b :: s'.Client(b) == s.Client(b);
    forall b ensures OpeningInv(s', s'.Client(b), sig) {
      assert OpeningInv(s, s.Client(b), sig);
    }
  }

  lemma {:induction false} AddKeepsCalm(s: State, a: nat, sig: Sig)
    requires Calm(s, sig)
    ensures Calm(Add(s, a), sig)
  {
    AddKeepsInv(s, a);
    var s' := Add(s, a);
    assert AdderInv(s.disk, s.Adder(a));
    assert forall b :: s'.Client(b) == s.Client(b);
    forall b ensures Unlinked(s'.Adder(b)) ==> Sha256(s'.Adder(b).data) != sig {
      assert b != a ==> s'.Adder(b) == s.Adder(b);
    }
    forall b ensures OpeningInv(s', s'.Client(b), sig) {
      assert OpeningInv(s, s.Client(b), sig);
    }
  }

  /** The pruner moves on without touching the disk. */
  lemma {:induction false} PrunerKeepsCalm(s: State, p: Pruner, sig: Sig)
    requires Calm(s, sig) && PrunerInv(s.disk, p)
    requires p.MarkRename? && p.name == Blob(sig) ==> Blob(sig) in s.disk.dir && s.disk.MTime(p.name) < p.expires
    requires !p.Resting? ==> forall c :: Opening(s.Client(c), sig) ==> p.expires <= s.Client(c).at
    ensures Calm(s.(pruner := p), sig)
  {
    var s' := s.(pruner := p);
    assert forall a :: s'.Adder(a) == s.Adder(a);
    assert forall c :: s'.Client(c) == s.Client(c);
    forall a ensures AdderInv(s'.disk, s'.Adder(a)) {
      assert AdderInv(s.disk, s.Adder(a));
    }
    forall c ensures OpeningInv(s', s'.Client(c), sig) {
      assert OpeningInv(s, s.Client(c), sig);
    }
  }

  lemma {:induction false} AddStartKeepsCalm(s: State, a: nat, inode: nat, data: Data, sig: Sig)
    requires Calm(s, sig) && Sha256(data) != sig && s.Adder(a).NotAdding? && inode !in s.disk.files
    ensures Calm(Create(s, a, inode, data), sig)
  {
    CreateKeepsInv(s, a, inode, data);
    var s' := Create(s, a, inode, data);
    assert forall c :: s'.Client(c) == s.Client(c);
    forall c ensures OpeningInv(s', s'.Client(c), sig) {
      assert OpeningInv(s, s.Client(c), sig);
    }
    forall b ensures Unlinked(s'.Adder(b)) ==> Sha256(s'.Adder(b).data) != sig {
      assert b != a ==> s'.Adder(b) == s.Adder(b);
    }
  }

  /** The pruner's steps that only look at the directory. */
  lemma {:induction false} ListingKeepsCalm(s: State, e: Event, sig: Sig)
    requires Calm(s, sig) && Admissible(s, e, sig) && Inv(Step(s, e))
    requires !e.ClientCall? && !e.PruneAct? && !e.AddCall? && !e.AddStart? && !e.ClientStart? && !e.ClientLeave? && !e.Tick?
    ensures Calm(Step(s, e), sig)
  {
    forall c ensures Opening(s.Client(c), sig) && !s.pruner.Resting? ==> s.pruner.expires <= s.Client(c).at {
      assert OpeningInv(s, s.Client(c), sig);
    }
    assert Step(s, e) == s.(pruner := Step(s, e).pruner);
    if Step(s, e).pruner != s.pruner {
      PrunerKeepsCalm(s, Step(s, e).pruner, sig);
    }
  }

  lemma {:induction false} StepKeepsCalm(s: State, e: Event, sig: Sig)
    requires Calm(s, sig) && Admissible(s, e, sig)
    ensures Calm(Step(s, e), sig)
  {
    StepKeepsInv(s, e);
    match e
    case ClientCall(c) => CallKeepsCalm(s, c, sig);
    case PruneAct => ActKeepsCalm(s, sig);
    case AddCall(a) => AddKeepsCalm(s, a, sig);
    case AddStart(a, inode, data) =>
      if s.Adder(a).NotAdding? && inode !in s.disk.files {
        AddStartKeepsCalm(s, a, inode, data, sig);
      }
    case ClientStart(c, x) => ClientKeepsCalm(s, c, Touch(x), sig);
    case ClientLeave(c) => ClientKeepsCalm(s, c, Idle, sig);
    case Tick(_) => DiskKeepsCalm(s, Step(s, e).disk, sig);
    case _ => ListingKeepsCalm(s, e, sig);
  }

  /** Once _access() has succeeded, reading succeeds by the second open() at the latest, and
      what is read hashes to the signature that was asked for. */
  lemma {:induction false} ReadSucceeds(s: State, es: seq<Event>, sig: Sig, c: nat)
    requires Calm(s, sig) && AdmissibleRun(s, es, sig)
    ensures Calm(Run(s, es), sig)
    ensures Run(s, es).Client(c) != Failed(sig)
    ensures Run(s, es).Client(c).Got? ==> Sha256(Run(s, es).Client(c).data) == Run(s, es).Client(c).sig
    ensures Run(s, es).Client(c).OpenAgain? && Run(s, es).Client(c).sig == sig ==>
              Call(Run(s, es), c).Client(c) == Got(sig, sig.data)
    decreases |es|
  {
    if es != [] {
      ReadSucceeds(s, es[..|es| - 1], sig, c);
      StepKeepsCalm(Run(s, es[..|es| - 1]), es[|es| - 1], sig);
    }
    var r := Run(s, es);
    assert OpeningInv(r, r.Client(c), sig);
  }

  // ---------------------------------------------------------------- without interference

  /** The last two calls of an undisturbed read whose access has just succeeded. */
  lemma {:induction false} QuietOpen(s: State, c: nat, sig: Sig)
    requires Inv(s) && s.Client(c).Open? && s.Client(c).sig == sig && Blob(sig) in s.disk.dir
    ensures Call(s, c).Client(c) == Got(sig, sig.data) && Call(s, c).disk == s.disk
    ensures Call(Call(s, c), c) == Call(s, c)
  {
  }

  /** The first calls, when the blob has to be rescued. */
  lemma {:induction false} QuietRescue(s: State, c: nat, sig: Sig)
    requires Inv(s) && s.Client(c) == Touch(sig) && Blob(sig) !in s.disk.dir
    ensures var r := Call(Call(Call(s, c), c), c);
            if BlobGc(sig) in s.disk.dir
            then r.Client(c) == Open(sig, s.disk.clock) && Blob(sig) in r.disk.dir && Inv(r)
                 && r.disk.MTime(Blob(sig)) == r.disk.clock == s.disk.clock
            else r.Client(c) == Missing(sig) && r.disk == s.disk
  {
    CallKeepsInv(s, c);
    var s1 := Call(s, c);
    assert s1.Client(c) == TouchRescue(sig) && s1.disk == s.disk;
    CallKeepsInv(s1, c);
    var s2 := Call(s1, c);
    assert s2.Client(c) == TouchAgain(sig);
    CallKeepsInv(s2, c);
  }

  /** Undisturbed, __getitem__ answers with the content exactly when the cache has it under
      either name, and leaves it touched under its proper name. */
  lemma {:induction false} QuietRead(s: State, c: nat, sig: Sig)
    requires Inv(s) && s.Client(c).Idle?
    ensures var r := Call(Call(Call(Call(Step(s, ClientStart(c, sig)), c), c), c), c);
            if Has(s.disk, sig)
            then r.Client(c) == Got(sig, sig.data) && Blob(sig) in r.disk.dir
                 && r.disk.Valid() && r.disk.MTime(Blob(sig)) == s.disk.clock
            else r.Client(c) == Missing(sig) && r.disk == s.disk
  {
    var s0 := Step(s, ClientStart(c, sig));
    StepKeepsInv(s, ClientStart(c, sig));
    if Blob(sig) in s.disk.dir {
      CallKeepsInv(s0, c);
      QuietOpen(Call(s0, c), c, sig);
    } else {
      QuietRescue(s0, c, sig);
      if BlobGc(sig) in s.disk.dir {
        QuietOpen(Call(Call(Call(s0, c), c), c), c, sig);
      }
    }
  }

  /** mkstemp(), some time later write(): the data is in a file of its own, under a name of its own. */
  function Writing(s: State, a: nat, inode: nat, data: Data, wait: nat): State
    requires s.disk.Valid()
  {
    Add(Step(Create(s, a, inode, data), Tick(wait)), a)
  }

  lemma {:induction false} QuietWrite(s: State, a: nat, inode: nat, data: Data, wait: nat)
    requires Inv(s) && s.Adder(a).NotAdding? && inode !in s.disk.files
    ensures Step(s, AddStart(a, inode, data)) == Create(s, a, inode, data)
    ensures var r := Writing(s, a, inode, data, wait);
            && Temp(inode) !in s.disk.dir && r.Adder(a) == AddLink(inode, data)
            && r.disk.dir == s.disk.dir[Temp(inode) := inode]
            && r.disk.files == s.disk.files[inode := File(s.disk.clock + wait, data)]
            && r.clients == s.clients && r.pruner == s.pruner && forall b :: b != a ==> r.Adder(b) == s.Adder(b)
  {
    assert s.disk.files[inode := File(s.disk.clock, "")][inode := File(s.disk.clock + wait, data)]
        == s.disk.files[inode := File(s.disk.clock + wait, data)];
  }

  /** link() and unlink(): the file gets its proper name if that is free, and loses the other one. */
  lemma {:induction false} QuietLink(s: State, a: nat, inode: nat, data: Data)
    requires s.Adder(a) == AddLink(inode, data) && Temp(inode) in s.disk.dir && s.disk.dir[Temp(inode)] == inode
    ensures var r, sig := Add(Add(s, a), a), Sha256(data);
            && r.Adder(a).NotAdding? && r.disk.files == s.disk.files && r.clients == s.clients && r.pruner == s.pruner
            && r.disk.dir == (if Blob(sig) in s.disk.dir then s.disk.dir else s.disk.dir[Blob(sig) := inode]) - {Temp(inode)}
            && forall b :: b != a ==> r.Adder(b) == s.Adder(b)
  {
    var mid := Add(s, a);
    assert mid.Adder(a) == AddUnlink(inode);
  }

  /** Undisturbed, add() puts the data under its proper name if the cache does not have the blob there;
      if it does, the directory stays as it is.  No earlier name loses its file or changes its age,
      and no temporary name is left. */
  lemma {:induction false} QuietAdd(s: State, a: nat, inode: nat, data: Data, wait: nat)
    requires Inv(s) && s.Adder(a).NotAdding? && inode !in s.disk.files
    ensures Step(s, AddStart(a, inode, data)) == Create(s, a, inode, data)
    ensures var r, sig := Add(Add(Writing(s, a, inode, data, wait), a), a), Sha256(data);
            && r.Adder(a).NotAdding? && Temp(inode) !in r.disk.dir && r.disk.Valid()
            && (forall n :: n in s.disk.dir ==>
                  n in r.disk.dir && r.disk.dir[n] == s.disk.dir[n] && r.disk.files[r.disk.dir[n]] == s.disk.files[s.disk.dir[n]])
            && (Blob(sig) in s.disk.dir ==> r.disk.dir == s.disk.dir)
            && (Blob(sig) !in s.disk.dir ==>
                  && r.disk.dir.Keys == s.disk.dir.Keys + {Blob(sig)}
                  && r.disk.files[r.disk.dir[Blob(sig)]] == File(s.disk.clock + wait, data))
            && r.clients == s.clients && r.pruner == s.pruner && forall b :: b != a ==> r.Adder(b) == s.Adder(b)
  {
    var mid, sig := Writing(s, a, inode, data, wait), Sha256(data);
    QuietWrite(s, a, inode, data, wait);
    QuietLink(mid, a, inode, data);
    var r := Add(Add(mid, a), a);
    assert r.disk.dir == if Blob(sig) in s.disk.dir then s.disk.dir else s.disk.dir[Blob(sig) := inode];
  }

  predicate Expired(d: Disk, n: Name, expires: int)
    requires d.Valid()
  {
    n in d.dir && d.MTime(n) < expires
  }

  class Directory {
    var disk: Disk

    constructor (disk: Disk)
      ensures this.disk == disk
    {
      this.disk := disk;
    }

    /** prune(), undisturbed: every expired name goes and nothing else does, except that a
        doomed copy makes way when its own live name is expired. */
    method Prune(maxAge: nat)
      requires disk.Valid()
      modifies this
      ensures disk.Valid() && disk.clock == old(disk.clock) && disk.files == old(disk.files)
      ensures var expires := old(disk.clock) - maxAge;
              forall n :: n in disk.dir <==>
                && n in old(disk).dir && !Expired(old(disk), n, expires)
                && !(n.Gc() && Expired(old(disk), Live(n), expires))
      ensures forall n :: n in disk.dir ==> disk.dir[n] == old(disk.dir)[n]
      ensures forall n :: n in old(disk).dir && !n.Gc() ==>
        (n in disk.dir <==> old(disk).MTime(n) >= old(disk.clock) - maxAge)
    {
      ghost var start := disk;
      MarkDoomed(disk.clock - maxAge);
      ghost var marked := disk;
      SweepDoomed(disk.clock - maxAge);
      forall n ensures n in disk.dir <==>
        && n in start.dir && !Expired(start, n, start.clock - maxAge)
        && !(n.Gc() && Expired(start, Live(n), start.clock - maxAge))
      {
        MarkedThenSwept(start, marked, n, start.clock - maxAge);
      }
    }

    /** The first loop: rename what is expired. */
    method MarkDoomed(expires: int)
      requires disk.Valid()
      modifies this
      ensures disk.Valid() && disk.clock == old(disk.clock) && disk.files == old(disk.files)
      ensures Marked(old(disk), disk, expires, {})
    {
      ghost var start := disk;
      var listing := set n | n in disk.dir.Keys && !n.Gc();
      while listing != {}
        invariant disk.Valid() && disk.clock == start.clock && disk.files == start.files
        invariant forall n :: n in listing ==> !n.Gc() && n in start.dir
        invariant Marked(start, disk, expires, listing)
        decreases listing
      {
        var file :| file in listing;
        if Expired(disk, file, expires) {
          disk := Rename(disk, file, file.WithSuffix()).value;
        }
        listing := listing - {file};
      }
    }

    /** The second loop: unlink what is still expired under a doomed name. */
    method SweepDoomed(expires: int)
      requires disk.Valid()
      modifies this
      ensures disk.Valid() && disk.clock == old(disk.clock) && disk.files == old(disk.files)
      ensures forall n :: n in disk.dir <==> n in old(disk).dir && !(n.Gc() && Expired(old(disk), n, expires))
      ensures forall n :: n in disk.dir ==> disk.dir[n] == old(disk).dir[n]
    {
      ghost var marked := disk;
      var listing := set n | n in disk.dir.Keys && n.Gc();
      while listing != {}
        invariant disk.Valid() && disk.clock == marked.clock && disk.files == marked.files
        invariant forall n :: n in listing ==> n.Gc()
        invariant forall n :: n in disk.dir <==>
          n in marked.dir && !(n.Gc() && n !in listing && Expired(marked, n, expires))
        invariant forall n :: n in disk.dir ==> disk.dir[n] == marked.dir[n]
        decreases listing
      {
        var file :| file in listing;
        if Expired(disk, file, expires) {
          disk := Unlink(disk, file);
        }
        listing := listing - {file};
      }
    }
  }

  /** What one name's two passes amount to. */
  lemma {:induction false} MarkedThenSwept(start: Disk, marked: Disk, n: Name, expires: int)
    requires start.Valid() && marked.Valid() && marked.files == start.files && Marked(start, marked, expires, {})
    ensures n in marked.dir && !(n.Gc() && Expired(marked, n, expires)) <==>
            n in start.dir && !Expired(start, n, expires) && !(n.Gc() && Expired(start, Live(n), expires))
  {
  }

  function Live(n: Name): Name {
    match n
    case BlobGc(sig) => Blob(sig)
    case TempGc(inode) => Temp(inode)
    case _ => n
  }

  /** The first pass so far: expired live names outside the listing have moved to their doomed
      names; every other name is as it was. */
  ghost predicate Marked(start: Disk, d: Disk, expires: int, listing: set<Name>)
    requires start.Valid()
  {
    && (forall n :: n in d.dir && !n.Gc() <==> n in start.dir && !n.Gc() && (n in listing || !Expired(start, n, expires)))
    && (forall n :: n in d.dir && n.Gc() <==>
          n.Gc() && (n in start.dir || (Live(n) !in listing && Expired(start, Live(n), expires))))
    && (forall n :: n in d.dir ==>
          if n.Gc() && Live(n) !in listing && Expired(start, Live(n), expires) then d.dir[n] == start.dir[Live(n)]
          else n in start.dir && d.dir[n] == start.dir[n])
  }
}
