// One environment on its own: the game as a coroutine over its globals, its arena
// and its directory, driven by start, step, snapshot and restore.

module Environment {
  import opened Arena
  import opened LevelFiles

  // ---- the game ----

  /** A place in the environment: an offset into the game's globals (reached
      through `nh_g`) or into its arena. */
  datatype Ref = Global(off: nat) | Heap(off: nat)

  /** One micro-step of the game, or a yield to the caller of `nle_step`. */
  datatype Op<O> =
    | Load(ref: Ref)
    | Store(ref: Ref, val: int)
    | Alloc(lth: UInt)
    | Free(off: nat)
    | LoadDepth                                // vision_recur_depth, which all
    | StoreDepth(val: int)                     // environments of a process share
    | ReadFile(name: Name, pos: nat)           // one byte of a file of the hackdir
    | WriteFile(name: Name, data: seq<Byte>)   // create it, or write it anew
    | Unlink(name: Name)
    | Yield(obs: O)

  const PANIC: int := -1 // what the game is told when its arena is exhausted
  const EOF: int := -1   // and when there is no such byte or file

  /** Any deterministic game. `R` is what lives on the coroutine's stack and in its
      registers; `Init` and `Resume` are entry from a start and from a step. The
      game knows arena addresses only as offsets. */
  datatype Game<!S, !A, !O, !R> = Game(
    template: seq<int>,     // the initial values of the globals
    cap: nat,               // the size of an arena
    Lock: seq<int> -> Name, // the name of the lock, which is one of the globals
    Init: S -> R,
    Resume: (R, A) -> R,
    Next: R -> Op<O>,
    Cont: (R, int) -> R)    // given the value loaded, the address allocated, or 0

  // ---- one environment ----

  /** `depth` is what the environment would find in the shared variable if it had
      the process to itself. */
  datatype Env<R> = Env(regs: R, globals: seq<int>, heap: seq<int>, used: nat, dir: Dir, depth: int)

  ghost predicate WellFormed<S, A, O, R>(g: Game<S, A, O, R>, e: Env<R>) {
    |e.globals| == |g.template| && |e.heap| == g.cap && e.used <= g.cap
  }

  /** `files` is what the caller has put in the directory. */
  function Fresh<S, A, O, R>(g: Game<S, A, O, R>, seed: S, files: Dir): Env<R> {
    Env(g.Init(seed), g.template, seq(g.cap, _ => 0), 0, files, 0)
  }

  /** The game touches only its own globals and the part of its arena in use. */
  predicate InBounds<R>(e: Env<R>, ref: Ref) {
    match ref
    case Global(off) => off < |e.globals|
    case Heap(off) => off < e.used <= |e.heap|
  }

  function Read<R>(e: Env<R>, ref: Ref): int
    requires InBounds(e, ref)
  {
    match ref
    case Global(off) => e.globals[off]
    case Heap(off) => e.heap[off]
  }

  function Write<R>(e: Env<R>, ref: Ref, v: int): Env<R>
    requires InBounds(e, ref)
  {
    match ref
    case Global(off) => e.(globals := e.globals[off := v])
    case Heap(off) => e.(heap := e.heap[off := v])
  }

  predicate CanMicro<O, R>(e: Env<R>, op: Op<O>) {
    match op
    case Load(ref) => InBounds(e, ref)
    case Store(ref, _) => InBounds(e, ref)
    case Yield(_) => false
    case _ => true
  }

  function FileByte(dir: Dir, name: Name, pos: nat): int {
    if name in dir && pos < |dir[name]| then dir[name][pos] else EOF
  }

  function Address(used: nat, cap: nat, lth: UInt): int {
    match Bump(used, cap, lth)
    case Block(offset) => offset
    case OutOfMemory => PANIC
  }

  function Micro<S, A, O, R>(g: Game<S, A, O, R>, e: Env<R>): Env<R>
    requires CanMicro(e, g.Next(e.regs))
  {
    match g.Next(e.regs)
    case Load(ref) => e.(regs := g.Cont(e.regs, Read(e, ref)))
    case Store(ref, v) => Write(e, ref, v).(regs := g.Cont(e.regs, 0))
    case Alloc(lth) =>
      e.(regs := g.Cont(e.regs, Address(e.used, g.cap, lth)), used := UsedAfter(e.used, g.cap, lth))
    case Free(_) => e.(regs := g.Cont(e.regs, 0))
    case LoadDepth => e.(regs := g.Cont(e.regs, e.depth))
    case StoreDepth(v) => e.(regs := g.Cont(e.regs, 0), depth := v)
    case ReadFile(name, pos) => e.(regs := g.Cont(e.regs, FileByte(e.dir, name, pos)))
    case WriteFile(name, data) => e.(regs := g.Cont(e.regs, 0), dir := e.dir[name := data])
    case Unlink(name) => e.(regs := g.Cont(e.regs, 0), dir := e.dir - {name})
  }

  // ---- snapshots ----

  datatype Snapshot<R> = Snapshot(regs: R, globals: seq<int>, saved: Saved, files: Dir)

  ghost predicate SnapshotFits<S, A, O, R>(g: Game<S, A, O, R>, s: Snapshot<R>) {
    |s.saved.bytes| == s.saved.used <= g.cap && |s.globals| == |g.template|
  }

  /** Which files are the environment's own follows from its lock. */
  function Base<S, A, O, R>(g: Game<S, A, O, R>, globals: seq<int>): Name { LockBase(g.Lock(globals)) }

  function Take<S, A, O, R>(g: Game<S, A, O, R>, e: Env<R>): Snapshot<R>
    requires e.used <= |e.heap|
  {
    Snapshot(e.regs, e.globals, Saved(e.used, e.heap[..e.used]), Owned(e.dir, Base(g, e.globals)))
  }

  /** Everything comes back but the arena bytes beyond the saved bump pointer and
      the files a snapshot does not own, which stay as the abandoned run left
      them, and the variable that is not the environment's. */
  function PutBack<S, A, O, R>(g: Game<S, A, O, R>, e: Env<R>, s: Snapshot<R>): Env<R>
    requires |s.saved.bytes| <= |e.heap|
  {
    Env(s.regs, s.globals, s.saved.bytes + e.heap[|s.saved.bytes|..], s.saved.used,
        NotOwned(e.dir, Base(g, s.globals)) + s.files, e.depth)
  }

  /** The files come back as `Hackdir.Bundle` and `Hackdir.RestoreFiles` bring
      them back, from any listing of the directory and with no stamping. */
  lemma FilesAsTheCode<S, A, O, R>(g: Game<S, A, O, R>, e: Env<R>, now: Env<R>, files: seq<File>, pid: seq<Byte>)
    requires e.used <= |e.heap| && e.used <= |now.heap|
    requires Contents(files) == Owned(e.dir, Base(g, e.globals))
    ensures PutBack(g, now, Take(g, e)).dir
         == NotOwned(now.dir, Base(g, e.globals)) + Contents(Stamped(files, false, pid))
    ensures Owned(PutBack(g, now, Take(g, e)).dir, Base(g, e.globals)) == Owned(e.dir, Base(g, e.globals))
    ensures NotOwned(PutBack(g, now, Take(g, e)).dir, Base(g, e.globals)) == NotOwned(now.dir, Base(g, e.globals))
  {
    hide IsSnapshotFile, Contents, Base;
    StampedContents(files, false, pid);
    RestoreExact(e.dir, now.dir, Base(g, e.globals), files, false, pid);
  }

  /** Whatever level the lock was last renamed for: a snapshot has every level file of
      the lock, and a restore brings it back as it was. */
  lemma LevelsBundled<S, A, O, R>(g: Game<S, A, O, R>, e: Env<R>, now: Env<R>, file: Name, lev: nat, other: nat)
    requires e.used <= |e.heap| == |now.heap| && g.Lock(e.globals) == SetLevelfileName(file, lev)
    ensures var level := SetLevelfileName(file, other);
            && (level in Take(g, e).files <==> level in e.dir)
            && SameFile(PutBack(g, now, Take(g, e)).dir, e.dir, level)
  {
    LockBaseInvertsRename(file, lev, other);
    hide SetLevelfileName, LockBase, IsLevelfile;
  }

  // ---- the life of one environment ----

  datatype Local<R> = Unborn | Local(env: Env<R>, running: bool, snaps: map<nat, Snapshot<R>>)

  /** What happens to an environment: its own calls, and the micro-steps and
      returns that answer them. */
  datatype LEvent<S, A> =
    | Start(seed: S, files: Dir)
    | Enter(action: A)
    | Tick
    | Leave
    | TakeSnapshot(handle: nat)
    | Restore(handle: nat)

  predicate Can<S, A, O, R>(g: Game<S, A, O, R>, l: Local<R>, ev: LEvent<S, A>) {
    match ev
    case Start(_, _) => l.Unborn?
    case Enter(_) => l.Local? && !l.running
    case Tick => l.Local? && l.running && CanMicro(l.env, g.Next(l.env.regs))
    case Leave => l.Local? && l.running && g.Next(l.env.regs).Yield?
    case TakeSnapshot(_) => l.Local? && !l.running && l.env.used <= |l.env.heap|
    case Restore(h) => l.Local? && !l.running && h in l.snaps && |l.snaps[h].saved.bytes| <= |l.env.heap|
  }

  function After<S, A, O, R>(g: Game<S, A, O, R>, l: Local<R>, ev: LEvent<S, A>): Local<R>
    requires Can(g, l, ev)
  {
    match ev
    case Start(seed, files) => Local(Fresh(g, seed, files), true, map[])
    case Enter(a) => l.(env := l.env.(regs := g.Resume(l.env.regs, a)), running := true)
    case Tick => l.(env := Micro(g, l.env))
    case Leave => l.(running := false)
    case TakeSnapshot(h) => l.(snaps := l.snaps[h := Take(g, l.env)])
    case Restore(h) => l.(env := PutBack(g, l.env, l.snaps[h]))
  }

  /** The observation an event hands to the caller, if it does. */
  function Shown<S, A, O, R>(g: Game<S, A, O, R>, l: Local<R>, ev: LEvent<S, A>): seq<O>
    requires Can(g, l, ev)
  {
    if ev.Leave? then [g.Next(l.env.regs).obs] else []
  }

  predicate LegalFrom<S, A, O, R>(g: Game<S, A, O, R>, l: Local<R>, evs: seq<LEvent<S, A>>)
    decreases |evs|, 0
  {
    evs == []
    || (LegalFrom(g, l, evs[..|evs| - 1]) && Can(g, RunFrom(g, l, evs[..|evs| - 1]), evs[|evs| - 1]))
  }

  function RunFrom<S, A, O, R>(g: Game<S, A, O, R>, l: Local<R>, evs: seq<LEvent<S, A>>): Local<R>
    requires LegalFrom(g, l, evs)
    decreases |evs|, 1
  {
    if evs == [] then l else After(g, RunFrom(g, l, evs[..|evs| - 1]), evs[|evs| - 1])
  }

  /** The observations of a run, in order. */
  function Observed<S, A, O, R>(g: Game<S, A, O, R>, l: Local<R>, evs: seq<LEvent<S, A>>): seq<O>
    requires LegalFrom(g, l, evs)
  {
    if evs == [] then []
    else
      var front := evs[..|evs| - 1];
      Observed(g, l, front) + Shown(g, RunFrom(g, l, front), evs[|evs| - 1])
  }

  /** The addresses a run allocated, in order. */
  function Allocated<S, A, O, R>(g: Game<S, A, O, R>, l: Local<R>, evs: seq<LEvent<S, A>>): seq<int>
    requires LegalFrom(g, l, evs)
  {
    if evs == [] then []
    else
      var front := evs[..|evs| - 1];
      var at := RunFrom(g, l, front);
      Allocated(g, l, front)
      + if evs[|evs| - 1].Tick? && g.Next(at.env.regs).Alloc? then
          [Address(at.env.used, g.cap, g.Next(at.env.regs).lth)]
        else []
  }

  // ---- an environment is a function of the calls made on it ----

  /** The calls of a run: what the environment's owner did, without the answers. */
  function Calls<S, A>(evs: seq<LEvent<S, A>>): seq<LEvent<S, A>> {
    if evs == [] then []
    else
      var ev := evs[|evs| - 1];
      Calls(evs[..|evs| - 1]) + if ev.Tick? || ev.Leave? then [] else [ev]
  }

  /** They are what is left of the run without the answers. */
  lemma {:induction false} CallsExact<S, A>(evs: seq<LEvent<S, A>>, ev: LEvent<S, A>)
    ensures ev in Calls(evs) <==> ev in evs && !ev.Tick? && !ev.Leave?
    ensures |Calls(evs)| <= |evs|
  {
    if evs != [] {
      CallsExact(evs[..|evs| - 1], ev);
    }
  }

  predicate AtRest<R>(l: Local<R>) { l.Local? ==> !l.running }

  /** A start or a step ends the rest, and the return from it restores it. */
  lemma RestExact<S, A, O, R>(g: Game<S, A, O, R>, l: Local<R>, ev: LEvent<S, A>)
    requires Can(g, l, ev)
    ensures AtRest<R>(Unborn)
    ensures AtRest(After(g, l, ev)) <==> ev.Leave? || (AtRest(l) && !ev.Start? && !ev.Enter?)
  {
  }

  lemma {:induction false} LegalPrefix<S, A, O, R>(g: Game<S, A, O, R>, l: Local<R>, evs: seq<LEvent<S, A>>, k: nat)
    requires LegalFrom(g, l, evs) && k <= |evs|
    ensures LegalFrom(g, l, evs[..k])
    decreases |evs|
  {
    if k < |evs| {
      LegalPrefix(g, l, evs[..|evs| - 1], k);
      assert evs[..|evs| - 1][..k] == evs[..k];
    } else {
      assert evs[..k] == evs;
    }
  }

  lemma {:induction false} CallsPrefix<S, A>(evs: seq<LEvent<S, A>>, k: nat)
    requires k <= |evs|
    ensures Calls(evs[..k]) <= Calls(evs)
    ensures k < |evs| && !evs[k].Tick? && !evs[k].Leave? ==>
              |Calls(evs[..k])| < |Calls(evs)| && Calls(evs)[|Calls(evs[..k])|] == evs[k]
    decreases |evs|
  {
    if k < |evs| {
      var front := evs[..|evs| - 1];
      CallsPrefix(front, k);
      assert front[..k] == evs[..k];
    } else {
      assert evs[..k] == evs;
    }
  }

  /** At every moment only one event can come next: the answer is determined
      while the game runs, and the next call while it does not. */
  lemma NextDetermined<S, A, O, R>(g: Game<S, A, O, R>, l: Local<R>, p: LEvent<S, A>, q: LEvent<S, A>)
    requires Can(g, l, p) && Can(g, l, q)
    ensures (p.Tick? || p.Leave?) ==> p == q
    ensures (p.Tick? || p.Leave?) <==> (q.Tick? || q.Leave?)
  {
  }

  lemma RunLonger<S, A, O, R>(g: Game<S, A, O, R>, l: Local<R>, evs: seq<LEvent<S, A>>, k: nat)
    requires LegalFrom(g, l, evs) && k < |evs|
    ensures LegalFrom(g, l, evs[..k]) && Can(g, RunFrom(g, l, evs[..k]), evs[k])
    ensures LegalFrom(g, l, evs[..k + 1]) && RunFrom(g, l, evs[..k + 1]) == After(g, RunFrom(g, l, evs[..k]), evs[k])
  {
    LegalPrefix(g, l, evs, k);
    LegalPrefix(g, l, evs, k + 1);
    assert evs[..k + 1][..k] == evs[..k];
  }

  /** Two runs from the same state with the same calls agree as far as both go. */
  lemma {:induction false} SameCallsSamePrefix<S, A, O, R>(
    g: Game<S, A, O, R>, l: Local<R>, p: seq<LEvent<S, A>>, q: seq<LEvent<S, A>>, k: nat)
    requires LegalFrom(g, l, p) && LegalFrom(g, l, q) && Calls(p) == Calls(q)
    requires k <= |p| && k <= |q|
    ensures p[..k] == q[..k]
    decreases k
  {
    hide LegalFrom, RunFrom, Calls, Can, After;
    if k > 0 {
      SameCallsSamePrefix(g, l, p, q, k - 1);
      RunLonger(g, l, p, k - 1);
      RunLonger(g, l, q, k - 1);
      NextDetermined(g, RunFrom(g, l, p[..k - 1]), p[k - 1], q[k - 1]);
      CallsPrefix(p, k - 1);
      CallsPrefix(q, k - 1);
      assert p[k - 1] == q[k - 1];
      assert p[..k] == p[..k - 1] + [p[k - 1]];
      assert q[..k] == q[..k - 1] + [q[k - 1]];
    }
  }

  /** Two runs from the same state with the same calls, both left at rest, are
      the same run: however often the game was interrupted, the calls alone
      decide every micro-step, observation and address. */
  lemma CallsDetermineRun<S, A, O, R>(g: Game<S, A, O, R>, l: Local<R>, p: seq<LEvent<S, A>>, q: seq<LEvent<S, A>>)
    requires LegalFrom(g, l, p) && LegalFrom(g, l, q)
    requires AtRest(RunFrom(g, l, p)) && AtRest(RunFrom(g, l, q))
    requires Calls(p) == Calls(q)
    ensures p == q
  {
    if |p| <= |q| {
      ShorterIsEqual(g, l, p, q);
    } else {
      ShorterIsEqual(g, l, q, p);
    }
  }

  lemma ShorterIsEqual<S, A, O, R>(g: Game<S, A, O, R>, l: Local<R>, p: seq<LEvent<S, A>>, q: seq<LEvent<S, A>>)
    requires LegalFrom(g, l, p) && LegalFrom(g, l, q) && AtRest(RunFrom(g, l, p))
    requires Calls(p) == Calls(q) && |p| <= |q|
    ensures p == q
  {
    var n := |p|;
    SameCallsSamePrefix(g, l, p, q, n);
    assert p[..n] == p;
    if n < |q| {
      RunLonger(g, l, q, n);
      CallsPrefix(q, n);
    } else {
      assert q[..n] == q;
    }
  }

  /** A run in two parts. */
  lemma {:induction false} RunConcat<S, A, O, R>(
    g: Game<S, A, O, R>, l: Local<R>, p: seq<LEvent<S, A>>, q: seq<LEvent<S, A>>)
    requires LegalFrom(g, l, p + q)
    ensures LegalFrom(g, l, p) && LegalFrom(g, RunFrom(g, l, p), q)
    ensures RunFrom(g, l, p + q) == RunFrom(g, RunFrom(g, l, p), q)
    ensures Observed(g, l, p + q) == Observed(g, l, p) + Observed(g, RunFrom(g, l, p), q)
    decreases |q|
  {
    if q == [] {
      assert p + q == p;
    } else {
      var front := q[..|q| - 1];
      assert (p + q)[..|p + q| - 1] == p + front;
      RunConcat(g, l, p, front);
      hide Can, After, Shown;
    }
  }
}
