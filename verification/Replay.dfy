// Restoring a snapshot and playing on reproduces the run that followed it.

module Replay {
  import opened Arena
  import opened LevelFiles
  import opened Environment
  import Isolation

  // ---- what a run knows ----

  /** The arena bytes, the files and the shared variable that two environments
      have in common. */
  datatype Known = Known(bytes: set<nat>, files: iset<Name>, depth: bool)

  /** Two environments that differ at most in what is not `known`. */
  ghost predicate AgreeOn<R>(a: Env<R>, b: Env<R>, known: Known) {
    && a.regs == b.regs && a.globals == b.globals && a.used == b.used && |a.heap| == |b.heap|
    && (forall i | i in known.bytes && i < |a.heap| :: a.heap[i] == b.heap[i])
    && (forall n | n in known.files :: SameFile(a.dir, b.dir, n))
    && (known.depth ==> a.depth == b.depth)
  }

  /** What is read is known. */
  ghost predicate Knows<O>(known: Known, op: Op<O>) {
    match op
    case Load(ref) => ref.Heap? ==> ref.off in known.bytes
    case LoadDepth => known.depth
    case ReadFile(name, _) => name in known.files
    case _ => true
  }

  /** What is written is known from then on. */
  ghost function Learn<O>(known: Known, op: Op<O>): Known {
    match op
    case Store(ref, _) => if ref.Heap? then known.(bytes := known.bytes + {ref.off}) else known
    case StoreDepth(_) => known.(depth := true)
    case WriteFile(name, _) => known.(files := known.files + iset{name})
    case Unlink(name) => known.(files := known.files + iset{name})
    case _ => known
  }

  /** Playing: no start, snapshot or restore. */
  predicate Playing<S, A>(evs: seq<LEvent<S, A>>) {
    forall i | 0 <= i < |evs| :: evs[i].Enter? || evs[i].Tick? || evs[i].Leave?
  }

  lemma PlayingExact<S, A>(evs: seq<LEvent<S, A>>)
    ensures Playing(evs) <==> forall ev | ev in evs :: !ev.Start? && !ev.TakeSnapshot? && !ev.Restore?
  {
    if forall ev | ev in evs :: !ev.Start? && !ev.TakeSnapshot? && !ev.Restore? {
      forall i | 0 <= i < |evs| ensures evs[i].Enter? || evs[i].Tick? || evs[i].Leave? {
        assert evs[i] in evs;
      }
    }
  }

  /** The operation an event performs. */
  function Doing<S, A, O, R>(g: Game<S, A, O, R>, l: Local<R>, ev: LEvent<S, A>): Op<O> {
    if ev.Tick? && l.Local? then g.Next(l.env.regs) else Free(0)
  }

  /** What is known after a run: what was known at its start and what it wrote. */
  ghost function Knowing<S, A, O, R>(g: Game<S, A, O, R>, l: Local<R>, evs: seq<LEvent<S, A>>, known: Known): Known
    requires LegalFrom(g, l, evs)
  {
    if evs == [] then known
    else
      var front := evs[..|evs| - 1];
      Learn(Knowing(g, l, front, known), Doing(g, RunFrom(g, l, front), evs[|evs| - 1]))
  }

  /** The run reads nothing that it does not know: no allocation is read before it
      is written, no file that is not the environment's own, and the shared
      variable only after storing to it. */
  ghost predicate ReadsKnown<S, A, O, R>(g: Game<S, A, O, R>, l: Local<R>, evs: seq<LEvent<S, A>>, known: Known)
    requires LegalFrom(g, l, evs)
  {
    evs == []
    || (var front := evs[..|evs| - 1];
        && ReadsKnown(g, l, front, known)
        && Knows(Knowing(g, l, front, known), Doing(g, RunFrom(g, l, front), evs[|evs| - 1])))
  }

  // ---- two runs that know the same ----

  ghost predicate Twins<R>(a: Local<R>, b: Local<R>, known: Known) {
    a.Local? && b.Local? && a.running == b.running && AgreeOn(a.env, b.env, known)
  }

  lemma StepKeepsAgreement<S, A, O, R>(
    g: Game<S, A, O, R>, a: Local<R>, b: Local<R>, ev: LEvent<S, A>, known: Known)
    requires Twins(a, b, known)
    requires Can(g, a, ev) && (ev.Enter? || ev.Tick? || ev.Leave?) && Knows(known, Doing(g, a, ev))
    ensures Can(g, b, ev)
    ensures Twins(After(g, a, ev), After(g, b, ev), Learn(known, Doing(g, a, ev)))
  {
    if ev.Tick? {
      MicroKeepsAgreement(g, a.env, b.env, known);
      hide AgreeOn, Learn, Micro;
    } else {
      hide CanMicro, Micro;
    }
  }

  lemma MicroKeepsAgreement<S, A, O, R>(g: Game<S, A, O, R>, a: Env<R>, b: Env<R>, known: Known)
    requires AgreeOn(a, b, known) && CanMicro(a, g.Next(a.regs)) && Knows(known, g.Next(a.regs))
    ensures CanMicro(b, g.Next(b.regs))
    ensures AgreeOn(Micro(g, a), Micro(g, b), Learn(known, g.Next(a.regs)))
  {
    match g.Next(a.regs)
    case Load(_) =>
    case Store(_, _) =>
    case Alloc(lth) => hide Environment.Address, UsedAfter;
    case WriteFile(name, data) =>
    case Unlink(name) =>
    case _ =>
  }

  /** The relational invariant over a whole run: the other environment can do the
      same, and shows, allocates and learns the same. */
  lemma {:induction false} RunsAgree<S, A, O, R>(
    g: Game<S, A, O, R>, a: Local<R>, b: Local<R>, evs: seq<LEvent<S, A>>, known: Known)
    requires Twins(a, b, known)
    requires LegalFrom(g, a, evs) && Playing(evs) && ReadsKnown(g, a, evs, known)
    ensures LegalFrom(g, b, evs)
    ensures Twins(RunFrom(g, a, evs), RunFrom(g, b, evs), Knowing(g, a, evs, known))
    ensures Knowing(g, b, evs, known) == Knowing(g, a, evs, known)
    ensures Observed(g, b, evs) == Observed(g, a, evs)
    ensures Allocated(g, b, evs) == Allocated(g, a, evs)
    decreases |evs|
  {
    hide AgreeOn;
    if evs != [] {
      var front, ev := evs[..|evs| - 1], evs[|evs| - 1];
      RunsAgree(g, a, b, front, known);
      StepKeepsAgreement(g, RunFrom(g, a, front), RunFrom(g, b, front), ev, Knowing(g, a, front, known));
      AgreeRegs(RunFrom(g, a, front), RunFrom(g, b, front), Knowing(g, a, front, known));
    }
  }

  lemma AgreeRegs<R>(a: Local<R>, b: Local<R>, known: Known)
    requires Twins(a, b, known)
    ensures a.env.regs == b.env.regs && a.env.used == b.env.used
  {
  }

  // ---- a run is replayed exactly if it reads only what it knows ----

  /** The same registers after every prefix. */
  ghost predicate SameMoves<S, A, O, R>(g: Game<S, A, O, R>, a: Local<R>, b: Local<R>, evs: seq<LEvent<S, A>>)
    requires LegalFrom(g, a, evs)
  {
    && LegalFrom(g, b, evs)
    && RunFrom(g, a, evs).Local? && RunFrom(g, b, evs).Local?
    && RunFrom(g, a, evs).env.regs == RunFrom(g, b, evs).env.regs
    && (evs != [] ==> SameMoves(g, a, b, evs[..|evs| - 1]))
  }

  /** The game goes on differently for every value it may have read. */
  ghost predicate Notices<S, A, O, R(!new)>(g: Game<S, A, O, R>) {
    forall r, v, v' | g.Cont(r, v) == g.Cont(r, v') && (g.Next(r).Load? || g.Next(r).LoadDepth? || g.Next(r).ReadFile?) :: v == v'
  }

  lemma {:induction false} RunsMoveAlike<S, A, O, R>(
    g: Game<S, A, O, R>, a: Local<R>, b: Local<R>, evs: seq<LEvent<S, A>>, known: Known)
    requires Twins(a, b, known)
    requires LegalFrom(g, a, evs) && Playing(evs) && ReadsKnown(g, a, evs, known)
    ensures SameMoves(g, a, b, evs)
    decreases |evs|
  {
    hide AgreeOn;
    RunsAgree(g, a, b, evs, known);
    AgreeRegs(RunFrom(g, a, evs), RunFrom(g, b, evs), Knowing(g, a, evs, known));
    if evs != [] {
      RunsMoveAlike(g, a, b, evs[..|evs| - 1], known);
    }
  }

  ghost predicate SameUnknown<R>(a: Env<R>, b: Env<R>, known: Known) {
    && |a.heap| == |b.heap|
    && (forall i | 0 <= i < |b.heap| && i !in known.bytes :: a.heap[i] == b.heap[i])
    && (forall n | n !in known.files :: SameFile(a.dir, b.dir, n))
    && (!known.depth ==> a.depth == b.depth)
  }

  lemma UnknownKept<S, A, O, R>(g: Game<S, A, O, R>, start: Env<R>, l: Local<R>, ev: LEvent<S, A>, known: Known)
    requires l.Local? && Can(g, l, ev) && (ev.Enter? || ev.Tick? || ev.Leave?) && SameUnknown(l.env, start, known)
    ensures After(g, l, ev).Local? && SameUnknown(After(g, l, ev).env, start, Learn(known, Doing(g, l, ev)))
  {
  }

  /** What a run has not learned it has not changed. */
  lemma {:induction false} UnknownUnchanged<S, A, O, R>(
    g: Game<S, A, O, R>, l: Local<R>, evs: seq<LEvent<S, A>>, known: Known)
    requires l.Local? && LegalFrom(g, l, evs) && Playing(evs)
    ensures RunFrom(g, l, evs).Local? && SameUnknown(RunFrom(g, l, evs).env, l.env, Knowing(g, l, evs, known))
    decreases |evs|
  {
    if evs != [] {
      hide SameUnknown, Can, After, Learn;
      var front, ev := evs[..|evs| - 1], evs[|evs| - 1];
      UnknownUnchanged(g, l, front, known);
      UnknownKept(g, l.env, RunFrom(g, l, front), ev, Knowing(g, l, front, known));
    } else {
      assert RunFrom(g, l, evs) == l;
    }
  }

  /** An environment that differs in just what `op` reads. */
  function Disturbed<O, R>(e: Env<R>, op: Op<O>): Env<R> {
    match op
    case Load(ref) => if ref.Heap? && ref.off < |e.heap| then e.(heap := e.heap[ref.off := e.heap[ref.off] + 1]) else e
    case LoadDepth => e.(depth := e.depth + 1)
    case ReadFile(name, pos) =>
      e.(dir := if FileByte(e.dir, name, pos) == EOF then e.dir[name := seq(pos + 1, _ => 0)] else e.dir - {name})
    case _ => e
  }

  lemma {:induction false} UnknownRemain<S, A, O, R>(
    g: Game<S, A, O, R>, l: Local<R>, evs: seq<LEvent<S, A>>, known: Known)
    requires LegalFrom(g, l, evs)
    ensures var after := Knowing(g, l, evs, known);
            known.bytes <= after.bytes && known.files <= after.files && (known.depth ==> after.depth)
    decreases |evs|
  {
    if evs != [] {
      UnknownRemain(g, l, evs[..|evs| - 1], known);
    }
  }

  /** After a run that reads only what it knows, reading anything else gives some
      twin away. */
  lemma {:induction false} UnknownReadShows<S, A, O, R(!new)>(
    g: Game<S, A, O, R>, a: Local<R>, front: seq<LEvent<S, A>>, known: Known) returns (b: Local<R>)
    requires a.Local? && Notices(g)
    requires LegalFrom(g, a, front) && Playing(front) && ReadsKnown(g, a, front, known)
    requires Can(g, RunFrom(g, a, front), Tick)
    requires !Knows(Knowing(g, a, front, known), g.Next(RunFrom(g, a, front).env.regs))
    ensures Twins(a, b, known)
    ensures LegalFrom(g, b, front) && RunFrom(g, b, front).Local? && Can(g, RunFrom(g, b, front), Tick)
    ensures Micro(g, RunFrom(g, b, front).env).regs != Micro(g, RunFrom(g, a, front).env).regs
  {
    var op := g.Next(RunFrom(g, a, front).env.regs);
    hide AgreeOn, SameUnknown, Knows, Disturbed, Can, Notices, Micro, Learn;
    UnknownUnchanged(g, a, front, known);
    UnknownRemain(g, a, front, known);
    b := a.(env := Disturbed(a.env, op));
    var after := Knowing(g, a, front, known);
    DisturbedIsTwin(a.env, op, known, after);
    RunsAgree(g, a, b, front, known);
    UnknownUnchanged(g, b, front, known);
    ReadsDiffer(g, a.env, RunFrom(g, a, front), RunFrom(g, b, front), op, after);
  }

  lemma DisturbedIsTwin<O, R>(e: Env<R>, op: Op<O>, known: Known, after: Known)
    requires !Knows(after, op)
    requires known.bytes <= after.bytes && known.files <= after.files && (known.depth ==> after.depth)
    ensures AgreeOn(e, Disturbed(e, op), known)
  {
  }

  lemma ReadsDiffer<S, A, O, R(!new)>(
    g: Game<S, A, O, R>, start: Env<R>, a: Local<R>, b: Local<R>, op: Op<O>, after: Known)
    requires Notices(g) && Can(g, a, Tick) && !Knows(after, op) && Twins(a, b, after)
    requires op == g.Next(a.env.regs)
    requires SameUnknown(a.env, start, after) && SameUnknown(b.env, Disturbed(start, op), after)
    ensures Can(g, b, Tick) && Micro(g, b.env).regs != Micro(g, a.env).regs
  {
    assert Micro(g, a.env).regs == g.Cont(a.env.regs, ReadBy(a.env, op));
    assert Micro(g, b.env).regs == g.Cont(a.env.regs, ReadBy(b.env, op));
  }

  /** What an operation that reads tells the game. */
  function ReadBy<O, R>(e: Env<R>, op: Op<O>): int {
    match op
    case Load(ref) => if InBounds(e, ref) then Read(e, ref) else 0
    case LoadDepth => e.depth
    case ReadFile(name, pos) => FileByte(e.dir, name, pos)
    case _ => 0
  }

  /** A run moves alike from every twin exactly if it reads only what is known.
      A restored environment is such a twin of the one the snapshot was taken of; so
      if nothing more is said of how it was left in between, the proviso of
      `RestoreReplays` is what is needed. (A particular game may be unable to leave
      some of the twins.) */
  lemma {:induction false} MovesAlikeExactlyWhenKnown<S, A, O, R(!new)>(
    g: Game<S, A, O, R>, a: Local<R>, evs: seq<LEvent<S, A>>, known: Known)
    requires a.Local? && Notices(g) && LegalFrom(g, a, evs) && Playing(evs)
    ensures ReadsKnown(g, a, evs, known) <==> forall b | Twins(a, b, known) :: SameMoves(g, a, b, evs)
    decreases |evs|
  {
    hide AgreeOn, LegalFrom, RunFrom, Knows, Can, Notices;
    if ReadsKnown(g, a, evs, known) {
      forall b | Twins(a, b, known) ensures SameMoves(g, a, b, evs) {
        RunsMoveAlike(g, a, b, evs, known);
      }
    } else {
      var front, ev := evs[..|evs| - 1], evs[|evs| - 1];
      RunLonger(g, a, evs, |evs| - 1);
      assert evs[..|evs|] == evs;
      MovesAlikeExactlyWhenKnown(g, a, front, known);
      if ReadsKnown(g, a, front, known) {
        TellTale(g, a, front, ev, known);
        var b := UnknownReadShows(g, a, front, known);
        if SameMoves(g, a, b, evs) {
          RunLonger(g, b, evs, |evs| - 1);
          assert false;
        }
      } else {
        var b :| Twins(a, b, known) && !SameMoves(g, a, b, front);
        assert !SameMoves(g, a, b, evs);
      }
    }
  }

  lemma TellTale<S, A, O, R>(g: Game<S, A, O, R>, a: Local<R>, front: seq<LEvent<S, A>>, ev: LEvent<S, A>, known: Known)
    requires LegalFrom(g, a, front) && Can(g, RunFrom(g, a, front), ev)
    requires !Knows(Knowing(g, a, front, known), Doing(g, RunFrom(g, a, front), ev))
    ensures ev.Tick? && RunFrom(g, a, front).Local?
    ensures !Knows(Knowing(g, a, front, known), g.Next(RunFrom(g, a, front).env.regs))
  {
  }

  // ---- snapshots ----

  ghost predicate Sound<S, A, O, R>(g: Game<S, A, O, R>, l: Local<R>) {
    l.Local? ==> WellFormed(g, l.env) && forall k | k in l.snaps :: SnapshotFits(g, l.snaps[k])
  }

  /** Every run keeps the environment and its snapshots well formed. */
  lemma {:induction false} RunsAreSound<S, A, O, R>(g: Game<S, A, O, R>, l: Local<R>, evs: seq<LEvent<S, A>>)
    requires Sound(g, l) && LegalFrom(g, l, evs)
    ensures Sound(g, RunFrom(g, l, evs))
    decreases |evs|
  {
    if evs != [] {
      hide LegalFrom, RunFrom, Sound, Can, After;
      RunsAreSound(g, l, evs[..|evs| - 1]);
      RunLonger(g, l, evs, |evs| - 1);
      assert evs[..|evs|] == evs;
      StepIsSound(g, RunFrom(g, l, evs[..|evs| - 1]), evs[|evs| - 1]);
    }
  }

  lemma StepIsSound<S, A, O, R>(g: Game<S, A, O, R>, l: Local<R>, ev: LEvent<S, A>)
    requires Sound(g, l) && Can(g, l, ev)
    ensures Sound(g, After(g, l, ev))
  {
    hide Base;
  }

  /** Between two calls a snapshot can always be taken, and any that is there put back. */
  lemma RestCan<S, A, O, R>(g: Game<S, A, O, R>, evs: seq<LEvent<S, A>>, h: nat)
    requires LegalFrom(g, Unborn, evs) && RunFrom(g, Unborn, evs).Local? && AtRest(RunFrom(g, Unborn, evs))
    ensures var l := RunFrom(g, Unborn, evs);
            Can(g, l, TakeSnapshot(h)) && (Can(g, l, Restore(h)) <==> h in l.snaps)
  {
    RunsAreSound(g, Unborn, evs);
  }

  /** A snapshot stays what it is until its handle is reused. */
  lemma {:induction false} SnapshotKept<S, A, O, R>(g: Game<S, A, O, R>, l: Local<R>, evs: seq<LEvent<S, A>>, h: nat)
    requires l.Local? && h in l.snaps && LegalFrom(g, l, evs)
    requires forall i | 0 <= i < |evs| :: evs[i] != TakeSnapshot(h)
    ensures var l' := RunFrom(g, l, evs); l'.Local? && h in l'.snaps && l'.snaps[h] == l.snaps[h]
    decreases |evs|
  {
    if evs != [] {
      SnapshotKept(g, l, evs[..|evs| - 1], h);
    }
  }

  function Below(n: nat): (s: set<nat>)
    ensures forall i: nat :: i in s <==> i < n
  {
    if n == 0 then {} else Below(n - 1) + {n - 1}
  }

  /** What a snapshot brings back: the arena in use and the environment's own
      files. The shared variable is not in it. */
  ghost function Restored<S, A, O, R>(g: Game<S, A, O, R>, e: Env<R>): Known {
    Known(Below(e.used), iset n: Name | IsSnapshotFile(n, Base(g, e.globals)), false)
  }

  lemma RestoredAgrees<S, A, O, R>(g: Game<S, A, O, R>, l: Local<R>, h: nat, mid: seq<LEvent<S, A>>)
    requires Sound(g, l) && CanRestore(g, l, h, mid)
    ensures l.Local? && !l.running && Twins(l, AfterRestore(g, l, h, mid), Restored(g, l.env))
  {
    var l1 := After(g, l, TakeSnapshot(h));
    SnapshotKept(g, l1, mid, h);
    RunsAreSound(g, l1, mid);
    hide LegalFrom, RunFrom, Take, PutBack, AgreeOn;
    PutBackAgrees(g, l.env, RunFrom(g, l1, mid).env);
  }

  lemma PutBackAgrees<S, A, O, R>(g: Game<S, A, O, R>, e: Env<R>, now: Env<R>)
    requires e.used <= |e.heap| == |now.heap|
    ensures AgreeOn(e, PutBack(g, now, Take(g, e)), Restored(g, e))
  {
    hide IsSnapshotFile, Base;
    forall n | n in Restored(g, e).files ensures SameFile(e.dir, PutBack(g, now, Take(g, e)).dir, n) {
    }
  }

  /** And nothing else is brought back: what is common to the environment and to every
      one in which its snapshot is put back is in `Restored`. */
  lemma RestoredExact<S, A, O, R(!new)>(g: Game<S, A, O, R>, e: Env<R>, known: Known)
    requires e.used <= |e.heap|
    ensures (forall now: Env<R> | |now.heap| == |e.heap| :: AgreeOn(e, PutBack(g, now, Take(g, e)), known))
            <==> (forall i | i in known.bytes && i < |e.heap| :: i in Restored(g, e).bytes)
                 && known.files <= Restored(g, e).files && (known.depth ==> Restored(g, e).depth)
  {
    var all := Restored(g, e);
    if (forall i | i in known.bytes && i < |e.heap| :: i in all.bytes) && known.files <= all.files && (known.depth ==> all.depth) {
      forall now: Env<R> | |now.heap| == |e.heap| ensures AgreeOn(e, PutBack(g, now, Take(g, e)), known) {
        PutBackAgrees(g, e, now);
        FewerAgree(e, PutBack(g, now, Take(g, e)), all, known);
      }
    } else {
      var now := Other(g, e, known);
    }
  }

  lemma FewerAgree<R>(a: Env<R>, b: Env<R>, all: Known, known: Known)
    requires AgreeOn(a, b, all)
    requires forall i | i in known.bytes && i < |a.heap| :: i in all.bytes
    requires known.files <= all.files && (known.depth ==> all.depth)
    ensures AgreeOn(a, b, known)
  {
  }

  lemma Other<S, A, O, R>(g: Game<S, A, O, R>, e: Env<R>, known: Known) returns (now: Env<R>)
    requires e.used <= |e.heap|
    requires !((forall i | i in known.bytes && i < |e.heap| :: i in Restored(g, e).bytes)
               && known.files <= Restored(g, e).files && (known.depth ==> Restored(g, e).depth))
    ensures |now.heap| == |e.heap| && !AgreeOn(e, PutBack(g, now, Take(g, e)), known)
  {
    if i :| i in known.bytes && i < |e.heap| && i !in Restored(g, e).bytes {
      now := e.(heap := e.heap[i := e.heap[i] + 1]);
      assert PutBack(g, now, Take(g, e)).heap[i] == e.heap[i] + 1;
    } else if n :| n in known.files && n !in Restored(g, e).files {
      now := e.(dir := if n in e.dir then e.dir - {n} else e.dir[n := []]);
      hide IsSnapshotFile, Base;
      assert !SameFile(e.dir, PutBack(g, now, Take(g, e)).dir, n);
    } else {
      now := e.(depth := e.depth + 1);
    }
  }

  /** A snapshot `h` of `l`, whatever `mid` comes after it, and a restore. */
  ghost predicate CanRestore<S, A, O, R>(g: Game<S, A, O, R>, l: Local<R>, h: nat, mid: seq<LEvent<S, A>>) {
    && Can(g, l, TakeSnapshot(h))
    && var l1 := After(g, l, TakeSnapshot(h));
       && LegalFrom(g, l1, mid) && (forall i | 0 <= i < |mid| :: mid[i] != TakeSnapshot(h))
       && Can(g, RunFrom(g, l1, mid), Restore(h))
  }

  function AfterRestore<S, A, O, R>(g: Game<S, A, O, R>, l: Local<R>, h: nat, mid: seq<LEvent<S, A>>): Local<R>
    requires CanRestore(g, l, h, mid)
  {
    After(g, RunFrom(g, After(g, l, TakeSnapshot(h)), mid), Restore(h))
  }

  /** A run that ends at rest and reads only what a restore brings back, or what it
      has written itself. */
  ghost predicate Replayable<S, A, O, R>(g: Game<S, A, O, R>, l: Local<R>, post: seq<LEvent<S, A>>) {
    l.Local? && LegalFrom(g, l, post) && Playing(post) && AtRest(RunFrom(g, l, post)) && ReadsKnown(g, l, post, Restored(g, l.env))
  }

  /** In any life `pre` of an environment, take a snapshot, go on in any way `mid`,
      restore, and make the calls of `post`: the micro-steps, the observations
      and the addresses allocated are those of making the calls right after the
      snapshot, provided that run read only what a restore brings back or what
      it had written itself. */
  lemma RestoreReplays<S, A, O, R>(
    g: Game<S, A, O, R>, pre: seq<LEvent<S, A>>, h: nat,
    mid: seq<LEvent<S, A>>, post: seq<LEvent<S, A>>, again: seq<LEvent<S, A>>)
    requires LegalFrom(g, Unborn, pre) && CanRestore(g, RunFrom(g, Unborn, pre), h, mid)
    requires Replayable(g, After(g, RunFrom(g, Unborn, pre), TakeSnapshot(h)), post)
    requires var l2 := AfterRestore(g, RunFrom(g, Unborn, pre), h, mid);
             LegalFrom(g, l2, again) && Calls(again) == Calls(post) && AtRest(RunFrom(g, l2, again))
    ensures var l1 := After(g, RunFrom(g, Unborn, pre), TakeSnapshot(h));
            var l2 := AfterRestore(g, RunFrom(g, Unborn, pre), h, mid);
            && again == post
            && Observed(g, l2, again) == Observed(g, l1, post)
            && Allocated(g, l2, again) == Allocated(g, l1, post)
  {
    var l := RunFrom(g, Unborn, pre);
    RunsAreSound(g, Unborn, pre);
    RestoredAgrees(g, l, h, mid);
    SnapshotChangesNothing(g, l, h);
    hide *;
    var l1, l2 := After(g, l, TakeSnapshot(h)), AfterRestore(g, l, h, mid);
    ReplayableParts(g, l1, post);
    TwinsOfSame(l, l1, l2, Restored(g, l1.env));
    RunsAgree(g, l1, l2, post, Restored(g, l1.env));
    CallsDetermineRun(g, l2, again, post);
  }

  lemma SnapshotChangesNothing<S, A, O, R>(g: Game<S, A, O, R>, l: Local<R>, h: nat)
    requires Can(g, l, TakeSnapshot(h))
    ensures var l1 := After(g, l, TakeSnapshot(h)); l1.Local? && l1.env == l.env && l1.running == l.running
  {
  }

  lemma TwinsOfSame<R>(l: Local<R>, l1: Local<R>, l2: Local<R>, known: Known)
    requires Twins(l, l2, known) && l1.Local? && l1.env == l.env && l1.running == l.running
    ensures Twins(l1, l2, known)
  {
  }

  lemma ReplayableParts<S, A, O, R>(g: Game<S, A, O, R>, l: Local<R>, post: seq<LEvent<S, A>>)
    ensures Replayable(g, l, post) <==>
              && l.Local? && LegalFrom(g, l, post) && Playing(post) && AtRest(RunFrom(g, l, post))
              && ReadsKnown(g, l, post, Restored(g, l.env))
  {
  }

  /** The same among other environments and threads: in any quiet schedule in which
      this is what environment `e` went through, after the restore it took the
      micro-steps, showed the observations and allocated the addresses that it
      would have alone right after the snapshot. */
  lemma RestoreReplaysAmongOthers<S, A, O, R>(
    g: Game<S, A, O, R>, sch: seq<Isolation.Event<S, A>>, e: nat, pre: seq<LEvent<S, A>>, h: nat,
    mid: seq<LEvent<S, A>>, again: seq<LEvent<S, A>>, post: seq<LEvent<S, A>>)
    requires Isolation.Legal(g, sch) && Isolation.Quiet(g, sch) && e !in Isolation.Calling(sch).Values
    requires Isolation.Project(sch, e) == pre + [TakeSnapshot(h)] + mid + [Restore(h)] + again
    requires forall i | 0 <= i < |mid| :: mid[i] != TakeSnapshot(h)
    requires LegalFrom(g, Unborn, pre + [TakeSnapshot(h)])
    requires var l1 := RunFrom(g, Unborn, pre + [TakeSnapshot(h)]);
             Replayable(g, l1, post) && Calls(again) == Calls(post)
    ensures again == post
    ensures var l1, before := RunFrom(g, Unborn, pre + [TakeSnapshot(h)]), pre + [TakeSnapshot(h)] + mid + [Restore(h)];
            && LegalFrom(g, Unborn, before) && LegalFrom(g, RunFrom(g, Unborn, before), again)
            && Isolation.ShownBy(Isolation.Final(g, sch).log, e) == Observed(g, Unborn, before) + Observed(g, l1, post)
            && Allocated(g, RunFrom(g, Unborn, before), again) == Allocated(g, l1, post)
  {
    hide Can, After, Playing, ReadsKnown, Restored;
    Isolation.EnvironmentsIsolated(g, sch, e);
    Isolation.NotCalledAtRest(g, sch, e);
    var before := pre + [TakeSnapshot(h)] + mid + [Restore(h)];
    RunConcat(g, Unborn, before, again);
    RunConcat(g, Unborn, pre + [TakeSnapshot(h)] + mid, [Restore(h)]);
    RunConcat(g, Unborn, pre + [TakeSnapshot(h)], mid);
    RunConcat(g, Unborn, pre, [TakeSnapshot(h)]);
    var l, l1 := RunFrom(g, Unborn, pre), RunFrom(g, Unborn, pre + [TakeSnapshot(h)]);
    OneEvent(g, l, TakeSnapshot(h));
    OneEvent(g, RunFrom(g, l1, mid), Restore(h));
    RestoreReplays(g, pre, h, mid, post, again);
  }

  lemma OneEvent<S, A, O, R>(g: Game<S, A, O, R>, l: Local<R>, ev: LEvent<S, A>)
    requires LegalFrom(g, l, [ev])
    ensures Can(g, l, ev) && RunFrom(g, l, [ev]) == After(g, l, ev)
  {
    assert [ev][..0] == [];
  }

  // ---- why the proviso is there ----

  datatype Regs = Regs(pc: nat, v: int)

  /** On each step this game allocates a block, looks at its first byte before
      writing it, writes 7 there, and shows what it saw. */
  const CARELESS: Game<(), (), int, Regs> := Game(
    [], 16,
    (globals: seq<int>) => [],
    (s: ()) => Regs(3, 0),
    (r: Regs, a: ()) => Regs(0, 0),
    (r: Regs) => if r.pc == 0 then Op<int>.Alloc(16)
                 else if r.pc == 1 then Load(Heap(0))
                 else if r.pc == 2 then Store(Heap(0), 7)
                 else Yield(r.v),
    (r: Regs, v: int) => Regs(r.pc + 1, if r.pc == 1 then v else r.v))

  /** It takes notice of what it reads. */
  lemma CarelessNotices()
    ensures Notices(CARELESS)
  {
  }

  const ONE_STEP: seq<LEvent<(), ()>> := [Enter(()), Tick, Tick, Tick, Leave]

  lemma CarelessStep(l: Local<Regs>)
    requires l.Local? && !l.running && l.env.used == 0 && |l.env.heap| == 16
    ensures LegalFrom(CARELESS, l, ONE_STEP)
    ensures Observed(CARELESS, l, ONE_STEP) == [l.env.heap[0]]
    ensures RunFrom(CARELESS, l, ONE_STEP)
         == l.(env := l.env.(regs := Regs(3, l.env.heap[0]), heap := l.env.heap[0 := 7], used := 16))
  {
    var g := CARELESS;
    var e1: seq<LEvent<(), ()>>, e2: seq<LEvent<(), ()>>, e3: seq<LEvent<(), ()>>, e4: seq<LEvent<(), ()>> :=
      [Enter(())], [Enter(()), Tick], [Enter(()), Tick, Tick], [Enter(()), Tick, Tick, Tick];
    assert e1[..0] == [] && e2[..1] == e1 && e3[..2] == e2 && e4[..3] == e3 && ONE_STEP[..4] == e4;
    assert LegalFrom(g, l, e1) && RunFrom(g, l, e1).env.regs == Regs(0, 0) && Observed(g, l, e1) == [];
    assert LegalFrom(g, l, e2) && RunFrom(g, l, e2).env == l.env.(regs := Regs(1, 0), used := 16);
    assert LegalFrom(g, l, e3) && RunFrom(g, l, e3).env.regs == Regs(2, l.env.heap[0]);
    assert LegalFrom(g, l, e4) && RunFrom(g, l, e4).env.regs == Regs(3, l.env.heap[0]);
    assert Observed(g, l, e1) == Observed(g, l, e2) == Observed(g, l, e3) == Observed(g, l, e4) == [];
  }

  /** Without the proviso a restore need not replay: the arena beyond the saved
      bump pointer keeps what the abandoned run wrote there. */
  lemma StaleBytesShow(h: nat)
    ensures var g := CARELESS;
            var l := Local(Fresh(g, (), map[]), false, map[]);
            var l1 := After(g, l, TakeSnapshot(h));
            && LegalFrom(g, l1, ONE_STEP) && Can(g, RunFrom(g, l1, ONE_STEP), Restore(h))
            && var l2 := After(g, RunFrom(g, l1, ONE_STEP), Restore(h));
            && LegalFrom(g, l2, ONE_STEP)
            && Observed(g, l1, ONE_STEP) == [0] && Observed(g, l2, ONE_STEP) == [7]
  {
    var g := CARELESS;
    var l := Local(Fresh(g, (), map[]), false, map[]);
    var l1 := After(g, l, TakeSnapshot(h));
    CarelessStep(l1);
    var l2 := After(g, RunFrom(g, l1, ONE_STEP), Restore(h));
    CarelessStep(l2);
  }

  /** That run is play, but it reads what it does not know. */
  lemma CarelessReadsUnknown(l: Local<Regs>)
    requires l.Local? && !l.running && l.env.used == 0 && |l.env.heap| == 16
    ensures Playing(ONE_STEP) && LegalFrom(CARELESS, l, ONE_STEP)
    ensures !ReadsKnown(CARELESS, l, ONE_STEP, Restored(CARELESS, l.env))
  {
    var other := l.(env := l.env.(heap := l.env.heap[0 := l.env.heap[0] + 1]));
    CarelessStep(l);
    CarelessStep(other);
    assert Twins(l, other, Restored(CARELESS, l.env));
    hide LegalFrom, RunFrom, Observed, ReadsKnown, AgreeOn, CARELESS, Restored;
    if ReadsKnown(CARELESS, l, ONE_STEP, Restored(CARELESS, l.env)) {
      RunsAgree(CARELESS, l, other, ONE_STEP, Restored(CARELESS, l.env));
    }
  }
}
