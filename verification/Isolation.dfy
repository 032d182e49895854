// Many environments in one address space, stepped by many threads: each behaves
// as if it were alone, as long as none disturbs it in the two things they share.

module Isolation {
  import opened Arena
  import opened LevelFiles
  import opened Environment

  // ---- memory ----

  type Mem = map<int, int>

  function Peek(m: Mem, a: int): int { if a in m then m[a] else 0 }

  /** memcpy of `s` to address `a`. */
  function Fill(m: Mem, a: int, s: seq<int>): (r: Mem)
    ensures forall x :: Peek(r, x) == if a <= x < a + |s| then s[x - a] else Peek(m, x)
  {
    m + map x: int {:trigger Peek(m, x)} | a <= x < a + |s| :: s[x - a]
  }

  function Slice(m: Mem, a: int, n: nat): (s: seq<int>)
    ensures |s| == n && forall i | 0 <= i < n :: s[i] == Peek(m, a + i)
  {
    if n == 0 then [] else Slice(m, a, n - 1) + [Peek(m, a + n - 1)]
  }

  lemma SliceSame(m: Mem, m': Mem, a: int, n: nat)
    requires forall x | a <= x < a + n :: Peek(m', x) == Peek(m, x)
    ensures Slice(m', a, n) == Slice(m, a, n)
  {
  }

  lemma SlicePoke(m: Mem, a: int, n: nat, i: nat, v: int)
    requires i < n
    ensures Slice(m[a + i := v], a, n) == Slice(m, a, n)[i := v]
  {
  }

  // ---- the layout of one environment ----

  // The header of a context block; the game's globals follow it in the same block.
  const G: int := 0          // nle->g
  const ARENA_BASE: int := 1
  const ARENA_USED: int := 2
  const ARENA_CAP: int := 3
  const HACKDIR: int := 4
  const HEADER: int := 5

  datatype Layout = Layout(ctx: int, arena: int, hackdir: nat)

  /** The block of a new environment, before its arena is used. */
  function Block<S, A, O, R>(g: Game<S, A, O, R>, at: Layout): seq<int> {
    [at.ctx + HEADER, at.arena, 0, g.cap, at.hackdir] + g.template
  }

  predicate InBlock<S, A, O, R>(g: Game<S, A, O, R>, p: Layout, a: int) {
    p.ctx <= a < p.ctx + HEADER + |g.template|
  }

  predicate InArena<S, A, O, R>(g: Game<S, A, O, R>, p: Layout, a: int) {
    p.arena <= a < p.arena + g.cap
  }

  ghost predicate Proper<S, A, O, R>(g: Game<S, A, O, R>, p: Layout) {
    forall a :: !(InBlock(g, p, a) && InArena(g, p, a))
  }

  ghost predicate Apart<S, A, O, R>(g: Game<S, A, O, R>, p: Layout, q: Layout) {
    forall a :: !((InBlock(g, p, a) || InArena(g, p, a)) && (InBlock(g, q, a) || InArena(g, q, a)))
  }

  // ---- the machine ----

  /** A thread's two thread-local pointers. */
  datatype Tls = Tls(currentNleCtx: int, nhG: int)

  /** A thread's activation of nle_start or nle_step: its argument, and the
      registers of the coroutine it has switched to. */
  datatype Activation<R> = Activation(env: nat, nle: int, regs: R)

  /** Who last stored to the shared variable: the history the proofs speak of. */
  datatype Writer = Nobody | Last(env: nat)

  /** What is neither a thread's nor an environment's: the directories, and
      vision_recur_depth, a plain static that every thread reads and writes. */
  datatype Outside = Outside(disk: map<nat, Dir>, depth: int, writer: Writer)

  function Files(disk: map<nat, Dir>, hackdir: nat): Dir { if hackdir in disk then disk[hackdir] else map[] }

  datatype Machine<O, R> = Machine(
    mem: Mem,
    outside: Outside,
    parked: map<int, R>,                        // the suspended coroutine of a context
    tls: map<nat, Tls>,                         // by thread
    active: map<nat, Activation<R>>,            // by thread
    live: map<nat, Layout>,                     // by environment
    snaps: map<nat, map<nat, Snapshot<R>>>,     // by environment, then by handle
    born: set<nat>,
    log: seq<(nat, O)>)                         // what was observed, by which environment

  function Boot<O, R>(): Machine<O, R> { 
    Machine(map[], Outside(map[], 0, Nobody), map[], map[], map[], map[], map[], {}, [])
   }

  datatype Event<S, A> =
    | NleStart(thread: nat, env: nat, at: Layout, seed: S, files: Dir) // in a directory prepared with `files`
    | NleStep(thread: nat, env: nat, action: A)
    | Run(thread: nat)     // one micro-step of the coroutine the thread is in
    | Return(thread: nat)  // the coroutine yields and the thread leaves nle_start or nle_step
    | NleEnd(thread: nat, env: nat)
    | FrSnapshot(thread: nat, env: nat, handle: nat)
    | FrRestore(thread: nat, env: nat, handle: nat)

  ghost predicate Busy<O, R>(m: Machine<O, R>, env: nat) {
    exists t | t in m.active :: m.active[t].env == env
  }

  /** nle_anchor: both thread-local pointers, the second read from the context. */
  function Anchor(m: Mem, nle: int): Tls { Tls(nle, if nle == 0 then 0 else Peek(m, nle + G)) }

  /** Where a reference of the game lands: globals are reached through nh_g, the
      arena through current_nle_ctx. */
  function Address(m: Mem, tls: Tls, ref: Ref): int {
    match ref
    case Global(off) => tls.nhG + off
    case Heap(off) => Peek(m, tls.currentNleCtx + ARENA_BASE) + off
  }

  function Nat(x: int): nat { if x < 0 then 0 else x }

  /** The game does not run wild: its references stay within its globals and the
      part of its arena in use. */
  predicate Tame<S, A, O, R>(g: Game<S, A, O, R>, m: Mem, tls: Tls, op: Op<O>) {
    var ok := (ref: Ref) => match ref
                            case Global(off) => off < |g.template|
                            case Heap(off) => off < Peek(m, tls.currentNleCtx + ARENA_USED);
    match op
    case Load(ref) => ok(ref)
    case Store(ref, _) => ok(ref)
    case Yield(_) => false
    case _ => true
  }

  /** What the callers see to (a thread makes one call at a time, an environment
      is live and in no other call), what the allocator promises (a new context
      and arena overlap nothing in use), and that the game is tame. */
  ghost predicate CanDo<S, A, O, R>(g: Game<S, A, O, R>, m: Machine<O, R>, ev: Event<S, A>) {
    match ev
    case NleStart(t, e, at, _, _) =>
      && t !in m.active && e !in m.born
      && at.ctx != 0 && Proper(g, at) && forall e' | e' in m.live :: Apart(g, at, m.live[e'])
    case NleStep(t, e, _) => t !in m.active && e in m.live && !Busy(m, e) && m.live[e].ctx in m.parked
    case Run(t) => t in m.active && t in m.tls && Tame(g, m.mem, m.tls[t], g.Next(m.active[t].regs))
    case Return(t) => t in m.active && g.Next(m.active[t].regs).Yield?
    case NleEnd(t, e) => t !in m.active && e in m.live && !Busy(m, e)
    case FrSnapshot(t, e, _) =>
      t !in m.active && e in m.live && !Busy(m, e) && m.live[e].ctx in m.parked && e in m.snaps
    case FrRestore(t, e, h) =>
      t !in m.active && e in m.live && !Busy(m, e) && e in m.snaps && h in m.snaps[e]
  }

  function DoStart<S, A, O, R>(
    g: Game<S, A, O, R>, m: Machine<O, R>, t: nat, e: nat, at: Layout, seed: S, files: Dir): Machine<O, R>
  {
    var mem := Fill(Fill(m.mem, at.ctx, Block(g, at)), at.arena, seq(g.cap, _ => 0));
    m.(mem := mem, tls := m.tls[t := Anchor(mem, at.ctx)], active := m.active[t := Activation(e, at.ctx, g.Init(seed))],
       outside := m.outside.(disk := m.outside.disk[at.hackdir := files]), live := m.live[e := at],
       snaps := m.snaps[e := map[]], born := m.born + {e})
  }

  function DoStep<S, A, O, R>(g: Game<S, A, O, R>, m: Machine<O, R>, t: nat, e: nat, a: A): Machine<O, R>
    requires e in m.live && m.live[e].ctx in m.parked
  {
    var nle := m.live[e].ctx;
    m.(tls := m.tls[t := Anchor(m.mem, nle)], active := m.active[t := Activation(e, nle, g.Resume(m.parked[nle], a))])
  }

  function DoRun<S, A, O, R>(g: Game<S, A, O, R>, m: Machine<O, R>, t: nat): Machine<O, R>
    requires t in m.active && t in m.tls
  {
    var c := m.active[t];
    var op := g.Next(c.regs);
    var hackdir := Nat(Peek(m.mem, m.tls[t].currentNleCtx + HACKDIR));
    var (mem, v) := Execute(m.mem, m.tls[t], op);
    var (outside, u) := Perform(m.outside, c.env, hackdir, op);
    m.(mem := mem, outside := outside, active := m.active[t := c.(regs := g.Cont(c.regs, if OnMemory(op) then v else u))])
  }

  function DoReturn<S, A, O, R>(g: Game<S, A, O, R>, m: Machine<O, R>, t: nat): Machine<O, R>
    requires t in m.active && g.Next(m.active[t].regs).Yield?
  {
    var c := m.active[t];
    m.(parked := m.parked[c.nle := c.regs], active := m.active - {t}, log := m.log + [(c.env, g.Next(c.regs).obs)])
  }

  function DoEnd<O, R>(m: Machine<O, R>, t: nat, e: nat): Machine<O, R>
    requires e in m.live
  {
    m.(parked := m.parked - {m.live[e].ctx}, live := m.live - {e}, tls := m.tls[t := Anchor(m.mem, 0)])
  }

  function DoSnapshot<S, A, O, R>(g: Game<S, A, O, R>, m: Machine<O, R>, t: nat, e: nat, h: nat): Machine<O, R>
    requires e in m.live && m.live[e].ctx in m.parked && e in m.snaps
  {
    var nle := m.live[e].ctx;
    var used := Nat(Peek(m.mem, nle + ARENA_USED));
    var s := Snapshot(m.parked[nle], Slice(m.mem, nle + HEADER, |g.template|),
                      Saved(used, Slice(m.mem, Peek(m.mem, nle + ARENA_BASE), used)),
                      OwnedFiles(g, m, nle));
    var more: map<nat, Snapshot<R>> := m.snaps[e][h := s];
    m.(tls := m.tls[t := Anchor(m.mem, nle)], snaps := m.snaps[e := more])
  }

  /** The files a snapshot of the environment at `nle` bundles. */
  function OwnedFiles<S, A, O, R>(g: Game<S, A, O, R>, m: Machine<O, R>, nle: int): Dir {
    Owned(Files(m.outside.disk, Nat(Peek(m.mem, nle + HACKDIR))), Base(g, Slice(m.mem, nle + HEADER, |g.template|)))
  }

  function DoRestore<S, A, O, R>(g: Game<S, A, O, R>, m: Machine<O, R>, t: nat, e: nat, h: nat): Machine<O, R>
    requires e in m.live && e in m.snaps && h in m.snaps[e]
  {
    var nle, s := m.live[e].ctx, m.snaps[e][h];
    var bytes := Fill(m.mem, Peek(m.mem, nle + ARENA_BASE), s.saved.bytes);
    var mem := Fill(bytes, nle + HEADER, s.globals)[nle + ARENA_USED := s.saved.used];
    var hackdir := Nat(Peek(m.mem, nle + HACKDIR));
    var dir := NotOwned(Files(m.outside.disk, hackdir), Base(g, s.globals)) + s.files;
    m.(mem := mem, outside := m.outside.(disk := m.outside.disk[hackdir := dir]), parked := m.parked[nle := s.regs],
       tls := m.tls[t := Anchor(mem, nle)])
  }

  function Do<S, A, O, R>(g: Game<S, A, O, R>, m: Machine<O, R>, ev: Event<S, A>): Machine<O, R>
    requires CanDo(g, m, ev)
  {
    match ev
    case NleStart(t, e, at, seed, files) => DoStart(g, m, t, e, at, seed, files)
    case NleStep(t, e, a) => DoStep(g, m, t, e, a)
    case Run(t) => DoRun(g, m, t)
    case Return(t) => DoReturn(g, m, t)
    case NleEnd(t, e) => DoEnd(m, t, e)
    case FrSnapshot(t, e, h) => DoSnapshot(g, m, t, e, h)
    case FrRestore(t, e, h) => DoRestore(g, m, t, e, h)
  }

  /** The effect of an operation on memory, and the value it gives the game. */
  function Execute<O>(m: Mem, tls: Tls, op: Op<O>): (Mem, int) {
    match op
    case Load(ref) => (m, Peek(m, Address(m, tls, ref)))
    case Store(ref, v) => (m[Address(m, tls, ref) := v], 0)
    case Alloc(lth) =>
      var ctx := tls.currentNleCtx;
      var used, cap := Nat(Peek(m, ctx + ARENA_USED)), Nat(Peek(m, ctx + ARENA_CAP));
      (m[ctx + ARENA_USED := UsedAfter(used, cap, lth)], Environment.Address(used, cap, lth))
    case _ => (m, 0)
  }

  predicate OnMemory<O>(op: Op<O>) { op.Load? || op.Store? || op.Alloc? || op.Free? }

  /** The effect of an operation outside memory, and what it tells the game. */
  function Perform<O>(o: Outside, env: nat, hackdir: nat, op: Op<O>): (Outside, int) {
    var dir := Files(o.disk, hackdir);
    match op
    case LoadDepth => (o, o.depth)
    case StoreDepth(v) => (o.(depth := v, writer := Last(env)), 0)
    case ReadFile(name, pos) => (o, FileByte(dir, name, pos))
    case WriteFile(name, data) => (o.(disk := o.disk[hackdir := dir[name := data]]), 0)
    case Unlink(name) => (o.(disk := o.disk[hackdir := dir - {name}]), 0)
    case _ => (o, 0)
  }

  /** The two things that nothing in the library keeps one environment from doing
      to another: that it starts in a directory that a live environment has for
      its own, or has stored to the shared variable since the reader did. */
  ghost predicate Undisturbed<S, A, O, R>(g: Game<S, A, O, R>, m: Machine<O, R>, ev: Event<S, A>) {
    match ev
    case NleStart(_, _, at, _, _) => forall e | e in m.live :: m.live[e].hackdir != at.hackdir
    case Run(t) =>
      t in m.active && g.Next(m.active[t].regs).LoadDepth? ==> m.outside.writer == Last(m.active[t].env)
    case _ => true
  }

  // ---- what the machine has to do with the environments on their own ----

  /** Environment `e` of the machine is in the state `l` it would be in alone. */
  ghost predicate Matches<S, A, O, R>(g: Game<S, A, O, R>, m: Machine<O, R>, e: nat, l: Local<R>)
    requires e in m.live
  {
    var at := m.live[e];
    && l.Local? && (l.running <==> Busy(m, e)) && WellFormed(g, l.env)
    && HoldsMemory(g, m.mem, at, l.env) && HoldsOutside(m.outside, e, at, l.env)
    && (l.running || (at.ctx in m.parked && m.parked[at.ctx] == l.env.regs))
    && (forall t | t in m.active && m.active[t].env == e ::
          && m.active[t] == Activation(e, at.ctx, l.env.regs)
          && t in m.tls && m.tls[t] == Tls(at.ctx, at.ctx + HEADER))
    && e in m.snaps && m.snaps[e] == l.snaps
    && forall h | h in l.snaps :: SnapshotFits(g, l.snaps[h])
  }

  ghost predicate HoldsMemory<S, A, O, R>(g: Game<S, A, O, R>, m: Mem, at: Layout, env: Env<R>) {
    && Proper(g, at) && at.ctx != 0
    && Peek(m, at.ctx + G) == at.ctx + HEADER
    && Peek(m, at.ctx + ARENA_BASE) == at.arena
    && Peek(m, at.ctx + ARENA_USED) == env.used
    && Peek(m, at.ctx + ARENA_CAP) == g.cap
    && Peek(m, at.ctx + HACKDIR) == at.hackdir
    && Slice(m, at.ctx + HEADER, |g.template|) == env.globals
    && Slice(m, at.arena, g.cap) == env.heap
  }

  lemma HeaderHeld<S, A, O, R>(g: Game<S, A, O, R>, m: Mem, at: Layout, env: Env<R>)
    requires HoldsMemory(g, m, at, env)
    ensures Peek(m, at.ctx + G) == at.ctx + HEADER && Peek(m, at.ctx + ARENA_BASE) == at.arena
    ensures Peek(m, at.ctx + ARENA_USED) == env.used && Peek(m, at.ctx + HACKDIR) == at.hackdir
  {
  }

  ghost predicate HoldsOutside<R>(o: Outside, e: nat, at: Layout, env: Env<R>) {
    && Files(o.disk, at.hackdir) == env.dir
    && (o.writer == Last(e) ==> o.depth == env.depth)
  }

  /** The machine's environments, one by one, are in the states of `w`. */
  ghost predicate Simulates<S, A, O, R>(g: Game<S, A, O, R>, m: Machine<O, R>, w: map<nat, Local<R>>) {
    && w.Keys == m.live.Keys && m.live.Keys <= m.born
    && (m.outside.writer.Last? ==> m.outside.writer.env in m.born)
    && (forall e | e in m.live :: Matches(g, m, e, w[e]))
    && (forall e, e' | e in m.live && e' in m.live && e != e' ::
          Apart(g, m.live[e], m.live[e']) && m.live[e].hackdir != m.live[e'].hackdir)
    && CallsWell(m)
  }

  /** Memory outside an environment's two regions does not matter to it. */
  lemma MemoryFrame<S, A, O, R>(g: Game<S, A, O, R>, m: Mem, m': Mem, at: Layout, env: Env<R>)
    requires HoldsMemory(g, m, at, env)
    requires forall a | InBlock(g, at, a) || InArena(g, at, a) :: Peek(m', a) == Peek(m, a)
    ensures HoldsMemory(g, m', at, env)
  {
    assert InBlock(g, at, at.ctx + G) && InBlock(g, at, at.ctx + ARENA_BASE);
    assert InBlock(g, at, at.ctx + ARENA_USED) && InBlock(g, at, at.ctx + ARENA_CAP) && InBlock(g, at, at.ctx + HACKDIR);
    assert forall x | at.ctx + HEADER <= x < at.ctx + HEADER + |g.template| :: InBlock(g, at, x);
    SliceSame(m, m', at.ctx + HEADER, |g.template|);
    assert forall x | at.arena <= x < at.arena + g.cap :: InArena(g, at, x);
    SliceSame(m, m', at.arena, g.cap);
  }

  ghost predicate SameRegions<S, A, O, R>(g: Game<S, A, O, R>, m: Mem, m': Mem, at: Layout) {
    forall a | InBlock(g, at, a) || InArena(g, at, a) :: Peek(m', a) == Peek(m, a)
  }

  /** Only the regions laid out at `at` are written. */
  ghost predicate WritesOnly<S, A, O, R>(g: Game<S, A, O, R>, m: Mem, m': Mem, at: Layout) {
    forall a | !InBlock(g, at, a) && !InArena(g, at, a) :: Peek(m', a) == Peek(m, a)
  }

  lemma ApartKeeps<S, A, O, R>(g: Game<S, A, O, R>, m: Mem, m': Mem, at: Layout, other: Layout)
    requires WritesOnly(g, m, m', at) && Apart(g, other, at)
    ensures SameRegions(g, m, m', other)
  {
  }

  /** An event of another environment leaves this one as it was. */
  ghost predicate Untouched<S, A, O, R>(g: Game<S, A, O, R>, m: Machine<O, R>, m': Machine<O, R>, e: nat)
    requires e in m.live
  {
    && e in m'.live && m'.live[e] == m.live[e]
    && SameRegions(g, m.mem, m'.mem, m.live[e])
    && Files(m'.outside.disk, m.live[e].hackdir) == Files(m.outside.disk, m.live[e].hackdir)
    && (m'.outside.writer == Last(e) ==> m.outside.writer == Last(e) && m'.outside.depth == m.outside.depth)
    && (m.live[e].ctx in m.parked ==>
          m.live[e].ctx in m'.parked && m'.parked[m.live[e].ctx] == m.parked[m.live[e].ctx])
    && (forall t :: t in m.active && m.active[t].env == e <==> t in m'.active && m'.active[t].env == e)
    && (forall t | t in m.active && m.active[t].env == e ::
          m'.active[t] == m.active[t] && (t in m.tls ==> t in m'.tls && m'.tls[t] == m.tls[t]))
    && (e in m.snaps ==> e in m'.snaps && m'.snaps[e] == m.snaps[e])
  }

  lemma FrameMatches<S, A, O, R>(g: Game<S, A, O, R>, m: Machine<O, R>, m': Machine<O, R>, e: nat, l: Local<R>)
    requires e in m.live && Matches(g, m, e, l) && Untouched(g, m, m', e)
    ensures Matches(g, m', e, l)
  {
    MemoryFrame(g, m.mem, m'.mem, m.live[e], l.env);
    if Busy(m, e) {
      var t :| t in m.active && m.active[t].env == e;
      assert t in m'.active && m'.active[t].env == e;
    }
    if Busy(m', e) {
      var t :| t in m'.active && m'.active[t].env == e;
      assert t in m.active && m.active[t].env == e;
    }
  }

  // ---- one micro-step ----

  lemma ExecuteMatches<S, A, O, R>(g: Game<S, A, O, R>, m: Mem, at: Layout, env: Env<R>, op: Op<O>)
    requires WellFormed(g, env) && HoldsMemory(g, m, at, env)
    requires op == g.Next(env.regs) && Tame(g, m, Tls(at.ctx, at.ctx + HEADER), op) && OnMemory(op)
    ensures CanMicro(env, op)
    ensures Micro(g, env).dir == env.dir && Micro(g, env).depth == env.depth
    ensures var (m', v) := Execute(m, Tls(at.ctx, at.ctx + HEADER), op);
            var env' := Micro(g, env);
            && WellFormed(g, env') && env'.regs == g.Cont(env.regs, v) && HoldsMemory(g, m', at, env')
            && forall a | !(InBlock(g, at, a) || InArena(g, at, a)) :: Peek(m', a) == Peek(m, a)
  {
    match op
    case Load(_) =>
    case Store(ref, v) => StoreMatches(g, m, at, env, ref, v);
    case Alloc(lth) => AllocMatches(g, m, at, env, lth);
    case Free(_) =>
  }

  lemma PerformMatches<S, A, O, R>(g: Game<S, A, O, R>, m: Mem, o: Outside, e: nat, at: Layout, env: Env<R>, op: Op<O>)
    requires WellFormed(g, env) && HoldsMemory(g, m, at, env) && HoldsOutside(o, e, at, env)
    requires op == g.Next(env.regs) && !OnMemory(op) && !op.Yield?
    requires op.LoadDepth? ==> o.writer == Last(e)
    ensures CanMicro(env, op) && Execute(m, Tls(at.ctx, at.ctx + HEADER), op).0 == m
    ensures var (o', v) := Perform(o, e, at.hackdir, op);
            var env' := Micro(g, env);
            && WellFormed(g, env') && env'.regs == g.Cont(env.regs, v)
            && HoldsMemory(g, m, at, env') && HoldsOutside(o', e, at, env')
  {
  }

  lemma StoreMatches<S, A, O, R>(g: Game<S, A, O, R>, m: Mem, at: Layout, env: Env<R>, ref: Ref, v: int)
    requires WellFormed(g, env) && HoldsMemory(g, m, at, env) && InBounds(env, ref)
    ensures var a := Address(m, Tls(at.ctx, at.ctx + HEADER), ref);
            && (InBlock(g, at, a) || InArena(g, at, a))
            && HoldsMemory(g, m[a := v], at, Write(env, ref, v))
  {
    HeaderHeld(g, m, at, env);
    hide HoldsMemory;
    match ref
    case Global(off) => StoreGlobal(g, m, at, env, off, v);
    case Heap(off) => StoreHeap(g, m, at, env, off, v);
  }

  lemma StoreGlobal<S, A, O, R>(g: Game<S, A, O, R>, m: Mem, at: Layout, env: Env<R>, off: nat, v: int)
    requires WellFormed(g, env) && HoldsMemory(g, m, at, env) && off < |env.globals|
    ensures InBlock(g, at, at.ctx + HEADER + off)
    ensures HoldsMemory(g, m[at.ctx + HEADER + off := v], at, env.(globals := env.globals[off := v]))
  {
    SlicePoke(m, at.ctx + HEADER, |g.template|, off, v);
    assert InBlock(g, at, at.ctx + HEADER + off);
    assert forall x | at.arena <= x < at.arena + g.cap :: InArena(g, at, x);
    SliceSame(m, m[at.ctx + HEADER + off := v], at.arena, g.cap);
  }

  lemma StoreHeap<S, A, O, R>(g: Game<S, A, O, R>, m: Mem, at: Layout, env: Env<R>, off: nat, v: int)
    requires WellFormed(g, env) && HoldsMemory(g, m, at, env) && off < |env.heap|
    ensures InArena(g, at, at.arena + off)
    ensures HoldsMemory(g, m[at.arena + off := v], at, env.(heap := env.heap[off := v]))
  {
    SlicePoke(m, at.arena, g.cap, off, v);
    assert InArena(g, at, at.arena + off);
    assert InBlock(g, at, at.ctx + G) && InBlock(g, at, at.ctx + ARENA_BASE) && InBlock(g, at, at.ctx + ARENA_USED);
    assert InBlock(g, at, at.ctx + ARENA_CAP) && InBlock(g, at, at.ctx + HACKDIR);
    assert forall x | at.ctx + HEADER <= x < at.ctx + HEADER + |g.template| :: InBlock(g, at, x);
    SliceSame(m, m[at.arena + off := v], at.ctx + HEADER, |g.template|);
  }

  lemma HeaderPoke<S, A, O, R>(g: Game<S, A, O, R>, m: Mem, at: Layout, env: Env<R>, used: nat)
    requires HoldsMemory(g, m, at, env)
    ensures HoldsMemory(g, m[at.ctx + ARENA_USED := used], at, env.(used := used))
  {
    var m' := m[at.ctx + ARENA_USED := used];
    assert InBlock(g, at, at.ctx + ARENA_USED);
    SliceSame(m, m', at.ctx + HEADER, |g.template|);
    assert forall x | at.arena <= x < at.arena + g.cap :: InArena(g, at, x);
    SliceSame(m, m', at.arena, g.cap);
  }

  lemma AllocMatches<S, A, O, R>(g: Game<S, A, O, R>, m: Mem, at: Layout, env: Env<R>, lth: UInt)
    requires WellFormed(g, env) && HoldsMemory(g, m, at, env)
    ensures var (m', v) := Execute<O>(m, Tls(at.ctx, at.ctx + HEADER), Alloc(lth));
            && v == Environment.Address(env.used, g.cap, lth)
            && UsedAfter(env.used, g.cap, lth) <= g.cap
            && HoldsMemory(g, m', at, env.(used := UsedAfter(env.used, g.cap, lth)))
            && forall a | !(InBlock(g, at, a) || InArena(g, at, a)) :: Peek(m', a) == Peek(m, a)
  {
    HeaderPoke(g, m, at, env, UsedAfter(env.used, g.cap, lth));
    assert InBlock(g, at, at.ctx + ARENA_USED);
  }

  // ---- every event, for the environment it is about ----

  lemma BlockMemory<S, A, O, R>(g: Game<S, A, O, R>, m: Mem, at: Layout, env: Env<R>)
    requires Proper(g, at) && at.ctx != 0
    requires env.globals == g.template && env.used == 0
    ensures var m' := Fill(m, at.ctx, Block(g, at));
            HoldsMemory(g, m', at, env.(heap := Slice(m', at.arena, g.cap)))
  {
    var block := Block(g, at);
    var m' := Fill(m, at.ctx, block);
    assert block[G] == at.ctx + HEADER && block[ARENA_BASE] == at.arena && block[ARENA_USED] == 0 && block[ARENA_CAP] == g.cap;
    assert block[HEADER..] == g.template;
    assert Slice(m', at.ctx + HEADER, |g.template|) == g.template;
  }

  lemma StartMemory<S, A, O, R>(g: Game<S, A, O, R>, m: Mem, at: Layout, seed: S, files: Dir)
    requires Proper(g, at) && at.ctx != 0
    ensures HoldsMemory(g, Fill(Fill(m, at.ctx, Block(g, at)), at.arena, seq(g.cap, _ => 0)),
                        at, Fresh(g, seed, files))
  {
    hide Fill, Slice;
    var m' := Fill(m, at.ctx, Block(g, at));
    var env := Fresh(g, seed, files);
    BlockMemory(g, m, at, env);
    FillArena(g, m', at, env.(heap := Slice(m', at.arena, g.cap)), seq(g.cap, _ => 0));
  }

  lemma StartMatches<S, A, O, R>(g: Game<S, A, O, R>, m: Machine<O, R>, t: nat, e: nat, at: Layout, seed: S, files: Dir)
    requires t !in m.active && !Busy(m, e) && Proper(g, at) && at.ctx != 0 && m.outside.writer != Last(e)
    ensures Matches(g, DoStart(g, m, t, e, at, seed, files), e, After(g, Unborn, Start(seed, files)))
  {
    hide Fill, Slice, Proper;
    StartMemory(g, m.mem, at, seed, files);
    assert DoStart(g, m, t, e, at, seed, files).active[t].env == e;
  }

  lemma StepMatches<S, A, O, R>(g: Game<S, A, O, R>, m: Machine<O, R>, t: nat, e: nat, a: A, l: Local<R>)
    requires e in m.live && Matches(g, m, e, l) && t !in m.active && !Busy(m, e)
    ensures m.live[e].ctx in m.parked && Can(g, l, Enter(a))
    ensures Matches(g, DoStep(g, m, t, e, a), e, After(g, l, Enter(a)))
  {
    hide Fill, Slice, Proper;
    var m' := DoStep(g, m, t, e, a);
    assert m'.active[t].env == e;
  }

  lemma RunMatches<S, A, O, R>(g: Game<S, A, O, R>, m: Machine<O, R>, t: nat, l: Local<R>)
    requires t in m.active && t in m.tls && Tame(g, m.mem, m.tls[t], g.Next(m.active[t].regs))
    requires forall t' | t' in m.active && t' != t :: m.active[t'].env != m.active[t].env
    requires m.active[t].env in m.live && Matches(g, m, m.active[t].env, l) && Undisturbed<S, A, O, R>(g, m, Run(t))
    ensures Can(g, l, Tick)
    ensures Matches(g, DoRun(g, m, t), m.active[t].env, After(g, l, Tick))
    ensures WritesOnly(g, m.mem, DoRun(g, m, t).mem, m.live[m.active[t].env])
    ensures DoRun(g, m, t).outside == Perform(m.outside, m.active[t].env, m.live[m.active[t].env].hackdir, g.Next(l.env.regs)).0
  {
    hide Fill, Slice, Proper, Execute, Perform, Micro, CanMicro;
    var e := m.active[t].env;
    var op := g.Next(l.env.regs);
    assert Busy(m, e);
    if OnMemory(op) {
      ExecuteMatches(g, m.mem, m.live[e], l.env, op);
      MemoryOnly(m.outside, e, m.live[e].hackdir, op);
    } else {
      PerformMatches(g, m.mem, m.outside, e, m.live[e], l.env, op);
    }
    assert DoRun(g, m, t).active[t].env == e;
  }

  lemma MemoryOnly<O>(o: Outside, e: nat, hackdir: nat, op: Op<O>)
    requires OnMemory(op)
    ensures Perform(o, e, hackdir, op).0 == o
  {
  }

  lemma ReturnMatches<S, A, O, R>(g: Game<S, A, O, R>, m: Machine<O, R>, t: nat, l: Local<R>)
    requires t in m.active && g.Next(m.active[t].regs).Yield?
    requires forall t' | t' in m.active && t' != t :: m.active[t'].env != m.active[t].env
    requires m.active[t].env in m.live && Matches(g, m, m.active[t].env, l)
    ensures Can(g, l, Leave)
    ensures Matches(g, DoReturn(g, m, t), m.active[t].env, After(g, l, Leave))
    ensures [g.Next(m.active[t].regs).obs] == Shown(g, l, Leave)
  {
    hide Fill, Slice, Proper, HoldsMemory;
    assert Busy(m, m.active[t].env);
  }

  lemma SliceTake(m: Mem, a: int, n: nat, k: nat)
    requires k <= n
    ensures Slice(m, a, n)[..k] == Slice(m, a, k)
  {
  }

  lemma SnapshotMatches<S, A, O, R>(g: Game<S, A, O, R>, m: Machine<O, R>, t: nat, e: nat, h: nat, l: Local<R>)
    requires e in m.live && Matches(g, m, e, l) && t !in m.active && !Busy(m, e)
    ensures m.live[e].ctx in m.parked && e in m.snaps && Can(g, l, TakeSnapshot(h))
    ensures Matches(g, DoSnapshot(g, m, t, e, h), e, After(g, l, TakeSnapshot(h)))
  {
    hide Slice, Proper;
    SliceTake(m.mem, m.live[e].arena, g.cap, l.env.used);
    assert DoSnapshot(g, m, t, e, h).snaps[e] == l.snaps[h := Take(g, l.env)];
  }

  lemma RestoreMemory<S, A, O, R>(g: Game<S, A, O, R>, m: Mem, at: Layout, env: Env<R>, s: Snapshot<R>)
    requires WellFormed(g, env) && HoldsMemory(g, m, at, env) && SnapshotFits(g, s)
    ensures HoldsMemory(g, Fill(Fill(m, at.arena, s.saved.bytes), at.ctx + HEADER, s.globals)[at.ctx + ARENA_USED := s.saved.used],
                        at, PutBack(g, env, s))
  {
    hide Fill, Slice;
    var m1 := Fill(m, at.arena, s.saved.bytes);
    FillArena(g, m, at, env, s.saved.bytes);
    var env1 := env.(heap := s.saved.bytes + env.heap[|s.saved.bytes|..]);
    FillGlobals(g, m1, at, env1, s.globals);
    HeaderPoke(g, Fill(m1, at.ctx + HEADER, s.globals), at, env1.(globals := s.globals), s.saved.used);
  }

  lemma FillArena<S, A, O, R>(g: Game<S, A, O, R>, m: Mem, at: Layout, env: Env<R>, bytes: seq<int>)
    requires WellFormed(g, env) && HoldsMemory(g, m, at, env) && |bytes| <= g.cap
    ensures HoldsMemory(g, Fill(m, at.arena, bytes), at, env.(heap := bytes + env.heap[|bytes|..]))
  {
    var m' := Fill(m, at.arena, bytes);
    forall a | InBlock(g, at, a) ensures Peek(m', a) == Peek(m, a) {
      assert !InArena(g, at, a);
    }
    assert InBlock(g, at, at.ctx + G) && InBlock(g, at, at.ctx + ARENA_BASE);
    assert InBlock(g, at, at.ctx + ARENA_USED) && InBlock(g, at, at.ctx + ARENA_CAP) && InBlock(g, at, at.ctx + HACKDIR);
    assert forall x | at.ctx + HEADER <= x < at.ctx + HEADER + |g.template| :: InBlock(g, at, x);
    SliceSame(m, m', at.ctx + HEADER, |g.template|);
    assert Slice(m', at.arena, g.cap) == bytes + Slice(m, at.arena, g.cap)[|bytes|..];
  }

  lemma FillGlobals<S, A, O, R>(g: Game<S, A, O, R>, m: Mem, at: Layout, env: Env<R>, globals: seq<int>)
    requires HoldsMemory(g, m, at, env) && |globals| == |g.template|
    ensures HoldsMemory(g, Fill(m, at.ctx + HEADER, globals), at, env.(globals := globals))
  {
    var m' := Fill(m, at.ctx + HEADER, globals);
    forall a | InArena(g, at, a) ensures Peek(m', a) == Peek(m, a) {
      assert !InBlock(g, at, a);
    }
    assert forall x | at.arena <= x < at.arena + g.cap :: InArena(g, at, x);
    SliceSame(m, m', at.arena, g.cap);
    assert Slice(m', at.ctx + HEADER, |g.template|) == globals;
  }

  lemma RestoreMatches<S, A, O, R>(g: Game<S, A, O, R>, m: Machine<O, R>, t: nat, e: nat, h: nat, l: Local<R>)
    requires e in m.live && Matches(g, m, e, l) && t !in m.active && !Busy(m, e)
    requires e in m.snaps && h in m.snaps[e]
    ensures Can(g, l, Restore(h))
    ensures Matches(g, DoRestore(g, m, t, e, h), e, After(g, l, Restore(h)))
  {
    hide Fill, Slice, Proper, Apart, Block, Base, LockBase;
    assert SnapshotFits(g, l.snaps[h]);
    RestoreMemory(g, m.mem, m.live[e], l.env, l.snaps[h]);
  }

  /** On the machine an environment can do all that it can do alone, and no more: a
      thread that is in no call can make the calls on it that it would take alone. */
  lemma CallPossible<S, A, O, R>(g: Game<S, A, O, R>, m: Machine<O, R>, e: nat, l: Local<R>, t: nat, a: A, h: nat)
    requires e in m.live && Matches(g, m, e, l) && t !in m.active
    ensures CanDo<S, A, O, R>(g, m, NleStep(t, e, a)) <==> Can(g, l, Enter(a))
    ensures CanDo<S, A, O, R>(g, m, FrSnapshot(t, e, h)) <==> Can(g, l, TakeSnapshot(h))
    ensures CanDo<S, A, O, R>(g, m, FrRestore(t, e, h)) <==> Can(g, l, Restore(h))
  {
    hide HoldsMemory, HoldsOutside;
    if l.running {
      var t' :| t' in m.active && m.active[t'].env == e;
    }
  }

  /** And a thread in a call on it can take its next micro-step, or return. */
  lemma AnswerPossible<S, A, O, R>(g: Game<S, A, O, R>, m: Machine<O, R>, t: nat, l: Local<R>)
    requires t in m.active && m.active[t].env in m.live && Matches(g, m, m.active[t].env, l)
    ensures CanDo<S, A, O, R>(g, m, Run(t)) <==> Can(g, l, Tick)
    ensures CanDo<S, A, O, R>(g, m, Return(t)) <==> Can(g, l, Leave)
  {
    assert Busy(m, m.active[t].env);
    HeaderHeld(g, m.mem, m.live[m.active[t].env], l.env);
    hide HoldsMemory, HoldsOutside;
  }

  // ---- every event, for the other environments ----

  lemma StartFrame<S, A, O, R>(g: Game<S, A, O, R>, m: Machine<O, R>, t: nat, e: nat, at: Layout, seed: S, files: Dir, o: nat)
    requires t !in m.active && o in m.live && o != e && Apart(g, at, m.live[o]) && at.hackdir != m.live[o].hackdir
    ensures Untouched(g, m, DoStart(g, m, t, e, at, seed, files), o)
  {
    StartWrites(g, m, t, e, at, seed, files);
    assert Apart(g, m.live[o], at);
    hide SameRegions, WritesOnly, Apart, DoStart, Untouched;
    ApartKeeps(g, m.mem, DoStart(g, m, t, e, at, seed, files).mem, at, m.live[o]);
    StartElsewhere(g, m, t, e, at, seed, files, o);
  }

  lemma StartElsewhere<S, A, O, R>(g: Game<S, A, O, R>, m: Machine<O, R>, t: nat, e: nat, at: Layout, seed: S, files: Dir, o: nat)
    requires t !in m.active && o in m.live && o != e && at.hackdir != m.live[o].hackdir
    requires SameRegions(g, m.mem, DoStart(g, m, t, e, at, seed, files).mem, m.live[o])
    ensures Untouched(g, m, DoStart(g, m, t, e, at, seed, files), o)
  {
    hide Fill, SameRegions, Block, Anchor;
  }

  lemma StartWrites<S, A, O, R>(g: Game<S, A, O, R>, m: Machine<O, R>, t: nat, e: nat, at: Layout, seed: S, files: Dir)
    ensures WritesOnly(g, m.mem, DoStart(g, m, t, e, at, seed, files).mem, at)
  {
  }

  lemma StepFrame<S, A, O, R>(g: Game<S, A, O, R>, m: Machine<O, R>, t: nat, e: nat, a: A, o: nat)
    requires t !in m.active && e in m.live && m.live[e].ctx in m.parked && o in m.live && o != e
    ensures Untouched(g, m, DoStep(g, m, t, e, a), o)
  {
  }

  lemma RunFrame<S, A, O, R>(g: Game<S, A, O, R>, m: Machine<O, R>, t: nat, o: nat)
    requires t in m.active && t in m.tls && o in m.live && o != m.active[t].env
    requires SameRegions(g, m.mem, DoRun(g, m, t).mem, m.live[o])
    requires exists hackdir: nat | hackdir != m.live[o].hackdir ::
               DoRun(g, m, t).outside == Perform(m.outside, m.active[t].env, hackdir, g.Next(m.active[t].regs)).0
    ensures Untouched(g, m, DoRun(g, m, t), o)
  {
    hide Execute, SameRegions;
    match g.Next(m.active[t].regs)
    case StoreDepth(_) =>
    case WriteFile(_, _) =>
    case Unlink(_) =>
    case _ =>
  }

  lemma RunElsewhere<S, A, O, R>(g: Game<S, A, O, R>, m: Machine<O, R>, t: nat, l: Local<R>, o: nat)
    requires t in m.active && t in m.tls && Tame(g, m.mem, m.tls[t], g.Next(m.active[t].regs))
    requires CallsWell(m) && Undisturbed<S, A, O, R>(g, m, Run(t))
    requires m.active[t].env in m.live && Matches(g, m, m.active[t].env, l)
    requires o in m.live && o != m.active[t].env && Apart(g, m.live[o], m.live[m.active[t].env])
    requires m.live[o].hackdir != m.live[m.active[t].env].hackdir
    ensures Untouched(g, m, DoRun(g, m, t), o)
  {
    RunMatches(g, m, t, l);
    hide Untouched, HoldsMemory, HoldsOutside, Tame, Apart, SameRegions, WritesOnly, Perform, DoRun, Undisturbed;
    ApartKeeps(g, m.mem, DoRun(g, m, t).mem, m.live[m.active[t].env], m.live[o]);
    RunFrame(g, m, t, o);
  }

  lemma ReturnFrame<S, A, O, R>(g: Game<S, A, O, R>, m: Machine<O, R>, t: nat, l: Local<R>, o: nat)
    requires t in m.active && g.Next(m.active[t].regs).Yield?
    requires m.active[t].env in m.live && Matches(g, m, m.active[t].env, l)
    requires o in m.live && o != m.active[t].env && m.live[m.active[t].env].ctx != m.live[o].ctx
    ensures Untouched(g, m, DoReturn(g, m, t), o)
  {
    assert m.active[t].nle == m.live[m.active[t].env].ctx;
    hide Matches;
  }

  lemma EndFrame<S, A, O, R>(g: Game<S, A, O, R>, m: Machine<O, R>, t: nat, e: nat, o: nat)
    requires t !in m.active && e in m.live && o in m.live && o != e && m.live[e].ctx != m.live[o].ctx
    ensures Untouched(g, m, DoEnd(m, t, e), o)
  {
  }

  lemma SnapshotFrame<S, A, O, R>(g: Game<S, A, O, R>, m: Machine<O, R>, t: nat, e: nat, h: nat, o: nat)
    requires t !in m.active && e in m.live && m.live[e].ctx in m.parked && e in m.snaps && o in m.live && o != e
    ensures Untouched(g, m, DoSnapshot(g, m, t, e, h), o)
  {
    hide Slice;
  }

  lemma RestoreFrame<S, A, O, R>(g: Game<S, A, O, R>, m: Machine<O, R>, t: nat, e: nat, h: nat, l: Local<R>, o: nat)
    requires t !in m.active && e in m.live && Matches(g, m, e, l) && e in m.snaps && h in m.snaps[e]
    requires o in m.live && o != e && Apart(g, m.live[o], m.live[e])
    requires m.live[e].ctx != m.live[o].ctx && m.live[e].hackdir != m.live[o].hackdir
    ensures Untouched(g, m, DoRestore(g, m, t, e, h), o)
  {
    RestoreWrites(g, m, t, e, h, l);
    HeaderHeld(g, m.mem, m.live[e], l.env);
    hide HoldsMemory, HoldsOutside;
    hide Slice, Fill, SameRegions, WritesOnly, Apart, Matches, Untouched, DoRestore;
    ApartKeeps(g, m.mem, DoRestore(g, m, t, e, h).mem, m.live[e], m.live[o]);
    RestoreElsewhere(g, m, t, e, h, o);
  }

  lemma RestoreElsewhere<S, A, O, R>(g: Game<S, A, O, R>, m: Machine<O, R>, t: nat, e: nat, h: nat, o: nat)
    requires t !in m.active && e in m.live && e in m.snaps && h in m.snaps[e]
    requires o in m.live && o != e && m.live[e].ctx != m.live[o].ctx
    requires Nat(Peek(m.mem, m.live[e].ctx + HACKDIR)) != m.live[o].hackdir
    requires SameRegions(g, m.mem, DoRestore(g, m, t, e, h).mem, m.live[o])
    ensures Untouched(g, m, DoRestore(g, m, t, e, h), o)
  {
    hide Slice, Fill, SameRegions, Base, Anchor;
  }

  lemma RestoreWrites<S, A, O, R>(g: Game<S, A, O, R>, m: Machine<O, R>, t: nat, e: nat, h: nat, l: Local<R>)
    requires e in m.live && Matches(g, m, e, l) && e in m.snaps && h in m.snaps[e]
    ensures WritesOnly(g, m.mem, DoRestore(g, m, t, e, h).mem, m.live[e])
  {
    hide Slice;
    assert SnapshotFits(g, l.snaps[h]);
    assert InBlock(g, m.live[e], m.live[e].ctx + ARENA_USED);
  }

  // ---- every event, for all environments at once ----

  function Lookup<R>(w: map<nat, Local<R>>, e: nat): Local<R> { if e in w then w[e] else Unborn }

  /** The environment an event is about, and what it is to that environment:
      its end is nothing to it any more. */
  function Owner<S, A>(ev: Event<S, A>, inCall: map<nat, nat>): nat {
    match ev
    case Run(t) => if t in inCall then inCall[t] else 0
    case Return(t) => if t in inCall then inCall[t] else 0
    case _ => ev.env
  }

  function AsLocal<S, A>(ev: Event<S, A>): seq<LEvent<S, A>> {
    match ev
    case NleStart(_, _, _, seed, files) => [Start(seed, files)]
    case NleStep(_, _, a) => [Enter(a)]
    case Run(_) => [Tick]
    case Return(_) => [Leave]
    case NleEnd(_, _) => []
    case FrSnapshot(_, _, h) => [TakeSnapshot(h)]
    case FrRestore(_, _, h) => [Restore(h)]
  }

  function OneLocal<S, A>(ev: Event<S, A>): LEvent<S, A>
    requires !ev.NleEnd?
  {
    AsLocal(ev)[0]
  }

  predicate OwnerCan<S, A, O, R>(g: Game<S, A, O, R>, m: Machine<O, R>, w: map<nat, Local<R>>, ev: Event<S, A>) {
    ev.NleEnd? || Can(g, Lookup(w, Owner(ev, InCall(m))), OneLocal(ev))
  }

  function InCall<O, R>(m: Machine<O, R>): map<nat, nat> { map t | t in m.active :: m.active[t].env }

  lemma OwnerMatches<S, A, O, R>(g: Game<S, A, O, R>, m: Machine<O, R>, w: map<nat, Local<R>>, ev: Event<S, A>)
    requires Simulates(g, m, w) && CanDo(g, m, ev) && Undisturbed(g, m, ev) && !ev.NleEnd?
    ensures var o := Owner(ev, InCall(m));
            && o in Do(g, m, ev).live && Can(g, Lookup(w, o), OneLocal(ev))
            && Matches(g, Do(g, m, ev), o, After(g, Lookup(w, o), OneLocal(ev)))
            && Do(g, m, ev).log == m.log + Tagged(o, Shown(g, Lookup(w, o), OneLocal(ev)))
  {
    hide Matches, Fill, Slice, Execute, Proper, Apart, Tame, Micro, CanMicro, PutBack, Fresh, Anchor;
    var o := Owner(ev, InCall(m));
    match ev
    case NleStart(t, e, at, seed, files) => StartMatches(g, m, t, e, at, seed, files);
    case NleStep(t, e, a) => StepMatches(g, m, t, e, a, w[e]);
    case Run(t) => RunMatches(g, m, t, w[o]);
    case Return(t) => ReturnMatches(g, m, t, w[o]);
    case FrSnapshot(t, e, h) => SnapshotMatches(g, m, t, e, h, w[e]);
    case FrRestore(t, e, h) => RestoreMatches(g, m, t, e, h, w[e]);
  }

  function Tagged<O>(e: nat, obs: seq<O>): seq<(nat, O)> {
    if obs == [] then [] else [(e, obs[0])]
  }

  lemma OwnContext<S, A, O, R>(g: Game<S, A, O, R>, m: Machine<O, R>, w: map<nat, Local<R>>, e: nat, o: nat)
    requires Simulates(g, m, w) && e in m.live && o in m.live && e != o
    ensures Apart(g, m.live[o], m.live[e]) && m.live[e].ctx != m.live[o].ctx && m.live[e].hackdir != m.live[o].hackdir
  {
    assert InBlock(g, m.live[e], m.live[e].ctx) && InBlock(g, m.live[o], m.live[o].ctx);
  }

  lemma OthersUntouched<S, A, O, R>(
    g: Game<S, A, O, R>, m: Machine<O, R>, w: map<nat, Local<R>>, ev: Event<S, A>, o: nat)
    requires Simulates(g, m, w) && CanDo(g, m, ev) && Undisturbed(g, m, ev) && o in m.live && o != Owner(ev, InCall(m))
    ensures Untouched(g, m, Do(g, m, ev), o)
  {
    hide Matches, Untouched, HoldsMemory, Tame, Apart, SameRegions, WritesOnly, Proper, Perform;
    hide DoStart, DoStep, DoRun, DoReturn, DoEnd, DoSnapshot, DoRestore;
    var e := Owner(ev, InCall(m));
    assert e in m.live ==> Matches(g, m, e, w[e]);
    if e in m.live {
      OwnContext(g, m, w, e, o);
    }
    match ev
    case NleStart(t, _, at, seed, files) => StartFrame(g, m, t, e, at, seed, files, o);
    case NleStep(t, _, a) => StepFrame(g, m, t, e, a, o);
    case Run(t) => RunElsewhere(g, m, t, w[e], o);
    case Return(t) => ReturnFrame(g, m, t, w[e], o);
    case NleEnd(t, _) => EndFrame(g, m, t, e, o);
    case FrSnapshot(t, _, h) => SnapshotFrame(g, m, t, e, h, o);
    case FrRestore(t, _, h) => RestoreFrame(g, m, t, e, h, w[e], o);
  }

  function NextWorld<S, A, O, R>(g: Game<S, A, O, R>, m: Machine<O, R>, w: map<nat, Local<R>>, ev: Event<S, A>): map<nat, Local<R>>
    requires OwnerCan(g, m, w, ev)
  {
    var o := Owner(ev, InCall(m));
    if ev.NleEnd? then w - {o} else w[o := After(g, Lookup(w, o), OneLocal(ev))]
  }

  lemma InCallUpdate<O, R>(m: Machine<O, R>, m': Machine<O, R>, t: nat, c: Activation<R>)
    requires m'.active == m.active[t := c]
    ensures InCall(m') == InCall(m)[t := c.env]
  {
  }

  lemma InCallDrop<O, R>(m: Machine<O, R>, m': Machine<O, R>, t: nat)
    requires m'.active == m.active - {t}
    ensures InCall(m') == InCall(m) - {t}
  {
  }

  lemma SameActive<O, R>(m: Machine<O, R>, m': Machine<O, R>)
    requires m'.active == m.active
    ensures InCall(m') == InCall(m)
  {
  }

  lemma ActiveKept<S, A, O, R>(g: Game<S, A, O, R>, m: Machine<O, R>, ev: Event<S, A>)
    requires CanDo(g, m, ev)
    ensures InCall(Do(g, m, ev)) == Switch(InCall(m), ev)
  {
    hide Fill, Slice, Execute, Proper, Tame, Apart, InCall;
    var m' := Do(g, m, ev);
    match ev
    case NleStart(t, _, _, _, _) => InCallUpdate(m, m', t, m'.active[t]);
    case NleStep(t, _, _) => InCallUpdate(m, m', t, m'.active[t]);
    case Run(t) =>
      InCallUpdate(m, m', t, m'.active[t]);
      assert InCall(m)[t := m.active[t].env] == InCall(m) by { InCallUpdate(m, m, t, m.active[t]); }
    case Return(t) => InCallDrop(m, m', t);
    case _ => SameActive(m, m');
  }

  /** The machine's shape: what `Simulates` says besides the environments' states. */
  lemma ShapeKept<S, A, O, R>(g: Game<S, A, O, R>, m: Machine<O, R>, ev: Event<S, A>)
    requires m.live.Keys <= m.born && CanDo(g, m, ev)
    ensures var m' := Do(g, m, ev);
            && m'.live.Keys <= m'.born && m.born <= m'.born
            && m'.live == (if ev.NleStart? then m.live[ev.env := ev.at] else if ev.NleEnd? then m.live - {ev.env} else m.live)
            && m'.born == (if ev.NleStart? then m.born + {ev.env} else m.born)
            && (ev.NleEnd? ==> m'.log == m.log)
  {
    hide Fill, Slice, Execute, Proper, Tame, Apart;
  }

  lemma WriterBorn<S, A, O, R>(g: Game<S, A, O, R>, m: Machine<O, R>, w: map<nat, Local<R>>, ev: Event<S, A>)
    requires Simulates(g, m, w) && CanDo(g, m, ev)
    ensures var m' := Do(g, m, ev); m'.outside.writer.Last? ==> m'.outside.writer.env in m'.born
  {
    hide Matches, Fill, Slice, Execute, Proper, Tame, Apart;
  }

  /** Which thread is in a call on which environment, after an event. */
  function Switch<S, A>(inCall: map<nat, nat>, ev: Event<S, A>): map<nat, nat> {
    match ev
    case NleStart(t, e, _, _, _) => inCall[t := e]
    case NleStep(t, e, _) => inCall[t := e]
    case Return(t) => inCall - {t}
    case _ => inCall
  }

  ghost predicate LayoutsApart<S, A, O, R>(g: Game<S, A, O, R>, live: map<nat, Layout>) {
    forall e, e' | e in live && e' in live && e != e' ::
      Apart(g, live[e], live[e']) && live[e].hackdir != live[e'].hackdir
  }

  lemma LayoutsKept<S, A, O, R>(g: Game<S, A, O, R>, m: Machine<O, R>, w: map<nat, Local<R>>, ev: Event<S, A>)
    requires Simulates(g, m, w) && CanDo(g, m, ev) && Undisturbed(g, m, ev)
    ensures LayoutsApart(g, Do(g, m, ev).live)
  {
    hide Matches, HoldsMemory, Fill, Slice, Execute, Proper, Tame, Do;
    ShapeKept(g, m, ev);
    ActiveKept(g, m, ev);
    if ev.NleStart? {
      forall e | e in m.live ensures Apart(g, m.live[e], ev.at) && m.live[e].hackdir != ev.at.hackdir {
        assert Apart(g, ev.at, m.live[e]);
      }
    }
  }

  /** Who is in a call: live environments only, each in one. */
  ghost predicate CallsWell<O, R>(m: Machine<O, R>) {
    && (forall t | t in m.active :: m.active[t].env in m.live)
    && (forall t, t' | t in m.active && t' in m.active && t != t' :: m.active[t].env != m.active[t'].env)
  }

  lemma CallsKept<S, A, O, R>(g: Game<S, A, O, R>, m: Machine<O, R>, ev: Event<S, A>)
    requires CallsWell(m) && m.live.Keys <= m.born && CanDo(g, m, ev)
    ensures CallsWell(Do(g, m, ev))
  {
    hide Fill, Slice, Execute, Perform, Proper, Tame, Apart, Base, Anchor;
    if ev.NleStart? || ev.NleStep? || ev.NleEnd? {
      assert forall t | t in m.active :: m.active[t].env != ev.env;
    }
  }

  /** One event of the machine is one event of its environment on its own. */
  lemma StepSimulates<S, A, O, R>(g: Game<S, A, O, R>, m: Machine<O, R>, w: map<nat, Local<R>>, ev: Event<S, A>)
    requires Simulates(g, m, w) && CanDo(g, m, ev) && Undisturbed(g, m, ev)
    ensures OwnerCan(g, m, w, ev)
    ensures Simulates(g, Do(g, m, ev), NextWorld(g, m, w, ev))
  {
    hide Matches, Apart, Do, Untouched, CanDo, After, Can;
    var o := Owner(ev, InCall(m));
    ShapeKept(g, m, ev);
    ActiveKept(g, m, ev);
    LayoutsKept(g, m, w, ev);
    CallsKept(g, m, ev);
    WriterBorn(g, m, w, ev);
    if !ev.NleEnd? {
      OwnerMatches(g, m, w, ev);
    }
    var m', w' := Do(g, m, ev), NextWorld(g, m, w, ev);
    forall e | e in m'.live ensures e in w' && Matches(g, m', e, w'[e]) {
      if e != o {
        OthersUntouched(g, m, w, ev, e);
        FrameMatches(g, m, m', e, w[e]);
      }
    }
  }

  // ---- whole schedules ----

  ghost predicate Legal<S, A, O, R>(g: Game<S, A, O, R>, sch: seq<Event<S, A>>)
    decreases |sch|, 0
  {
    sch == [] || (Legal(g, sch[..|sch| - 1]) && CanDo(g, Final(g, sch[..|sch| - 1]), sch[|sch| - 1]))
  }

  /** Where a schedule, of any threads over any environments, leads. */
  ghost function Final<S, A, O, R>(g: Game<S, A, O, R>, sch: seq<Event<S, A>>): Machine<O, R>
    requires Legal(g, sch)
    decreases |sch|, 1
  {
    if sch == [] then Boot() else Do(g, Final(g, sch[..|sch| - 1]), sch[|sch| - 1])
  }

  lemma LegalSnoc<S, A, O, R>(g: Game<S, A, O, R>, sch: seq<Event<S, A>>, ev: Event<S, A>)
    requires Legal(g, sch) && CanDo(g, Final(g, sch), ev)
    ensures Legal(g, sch + [ev]) && Final(g, sch + [ev]) == Do(g, Final(g, sch), ev)
  {
    hide CanDo, Do;
    assert (sch + [ev])[..|sch|] == sch;
  }

  /** No event of the schedule disturbs an environment. */
  ghost predicate Quiet<S, A, O, R>(g: Game<S, A, O, R>, sch: seq<Event<S, A>>)
    requires Legal(g, sch)
  {
    sch == []
    || (Quiet(g, sch[..|sch| - 1]) && Undisturbed(g, Final(g, sch[..|sch| - 1]), sch[|sch| - 1]))
  }

  function Calling<S, A>(sch: seq<Event<S, A>>): map<nat, nat> {
    if sch == [] then map[] else Switch(Calling(sch[..|sch| - 1]), sch[|sch| - 1])
  }

  /** What a schedule does to one environment. */
  function Project<S, A>(sch: seq<Event<S, A>>, e: nat): seq<LEvent<S, A>> {
    if sch == [] then []
    else
      var front, ev := sch[..|sch| - 1], sch[|sch| - 1];
      Project(front, e) + if Owner(ev, Calling(front)) == e then AsLocal(ev) else []
  }

  /** What one environment showed. */
  function ShownBy<O>(log: seq<(nat, O)>, e: nat): seq<O> {
    if log == [] then []
    else ShownBy(log[..|log| - 1], e) + if log[|log| - 1].0 == e then [log[|log| - 1].1] else []
  }

  lemma ShownSnoc<O>(log: seq<(nat, O)>, e: nat, o: nat, obs: seq<O>)
    requires |obs| <= 1
    ensures ShownBy(log + Tagged(o, obs), e) == ShownBy(log, e) + if o == e then obs else []
  {
    if obs == [] {
      assert log + Tagged(o, obs) == log;
    } else {
      var more := log + Tagged(o, obs);
      assert more[..|more| - 1] == log;
    }
  }

  lemma ProjectOther<S, A, O, R>(g: Game<S, A, O, R>, evs: seq<LEvent<S, A>>, ev: LEvent<S, A>)
    requires LegalFrom(g, Unborn, evs) && Can(g, RunFrom(g, Unborn, evs), ev)
    ensures LegalFrom(g, Unborn, evs + [ev])
    ensures RunFrom(g, Unborn, evs + [ev]) == After(g, RunFrom(g, Unborn, evs), ev)
    ensures Observed(g, Unborn, evs + [ev]) == Observed(g, Unborn, evs) + Shown(g, RunFrom(g, Unborn, evs), ev)
  {
    assert (evs + [ev])[..|evs|] == evs;
  }

  ghost predicate Alone<S, A, O, R>(g: Game<S, A, O, R>, sch: seq<Event<S, A>>, m: Machine<O, R>, w: map<nat, Local<R>>) {
    && Calling(sch) == InCall(m)
    && (forall e: nat :: LegalFrom(g, Unborn, Project(sch, e)))
    && (forall e: nat :: ShownBy(m.log, e) == Observed(g, Unborn, Project(sch, e)))
    && (forall e: nat :: e in m.live ==> e in w && w[e] == RunFrom(g, Unborn, Project(sch, e)))
    && (forall e: nat :: e !in m.born ==> Project(sch, e) == [])
  }

  /** Before an event, its environment is where its own history leads. */
  lemma OwnerHistory<S, A, O, R>(g: Game<S, A, O, R>, sch: seq<Event<S, A>>, m: Machine<O, R>, w: map<nat, Local<R>>, ev: Event<S, A>)
    requires Simulates(g, m, w) && Alone(g, sch, m, w) && CanDo(g, m, ev)
    ensures var o := Owner(ev, InCall(m)); Lookup(w, o) == RunFrom(g, Unborn, Project(sch, o))
  {
    hide Matches, Apart, Tame, Proper;
    var o := Owner(ev, InCall(m));
    assert o in m.live || o !in m.born;
  }

  lemma ProjectSnoc<S, A>(sch: seq<Event<S, A>>, ev: Event<S, A>, e: nat)
    ensures Project(sch + [ev], e) == Project(sch, e) + if Owner(ev, Calling(sch)) == e then AsLocal(ev) else []
    ensures Calling(sch + [ev]) == Switch(Calling(sch), ev)
  {
    assert (sch + [ev])[..|sch|] == sch;
  }

  lemma AloneFor<S, A, O, R>(
    g: Game<S, A, O, R>, sch: seq<Event<S, A>>, m: Machine<O, R>, w: map<nat, Local<R>>, ev: Event<S, A>, e: nat)
    requires Simulates(g, m, w) && Alone(g, sch, m, w) && CanDo(g, m, ev) && Undisturbed(g, m, ev)
    requires OwnerCan(g, m, w, ev)
    ensures var m', p := Do(g, m, ev), Project(sch + [ev], e);
            && LegalFrom(g, Unborn, p)
            && ShownBy(m'.log, e) == Observed(g, Unborn, p)
            && (e in m'.live ==>
                  e in NextWorld(g, m, w, ev) && NextWorld(g, m, w, ev)[e] == RunFrom(g, Unborn, p))
            && (e !in m'.born ==> p == [])
  {
    hide Matches, Apart, Do, CanDo, After, Can, LegalFrom, RunFrom, Observed, ShownBy, Project, Calling, Shown, Switch;
    var o := Owner(ev, InCall(m));
    ShapeKept(g, m, ev);
    ProjectSnoc(sch, ev, e);
    OwnerHistory(g, sch, m, w, ev);
    if ev.NleEnd? {
      assert Project(sch + [ev], e) == Project(sch, e);
    } else {
      OwnerMatches(g, m, w, ev);
      ProjectOther(g, Project(sch, o), OneLocal(ev));
      assert AsLocal(ev) == [OneLocal(ev)];
      AtMostOne(g, Lookup(w, o), OneLocal(ev));
      ShownSnoc(m.log, e, o, Shown(g, Lookup(w, o), OneLocal(ev)));
      assert e != o ==> Project(sch + [ev], e) == Project(sch, e);
      BornOwner(g, m, w, ev);
    }
  }

  lemma AtMostOne<S, A, O, R>(g: Game<S, A, O, R>, l: Local<R>, ev: LEvent<S, A>)
    requires Can(g, l, ev)
    ensures |Shown(g, l, ev)| <= 1
  {
  }

  lemma BornOwner<S, A, O, R>(g: Game<S, A, O, R>, m: Machine<O, R>, w: map<nat, Local<R>>, ev: Event<S, A>)
    requires Simulates(g, m, w) && CanDo(g, m, ev)
    ensures Owner(ev, InCall(m)) in Do(g, m, ev).born
  {
    hide Matches, Apart, Tame, Proper, Do;
    ShapeKept(g, m, ev);
  }

  lemma AloneStep<S, A, O, R>(g: Game<S, A, O, R>, sch: seq<Event<S, A>>, m: Machine<O, R>, w: map<nat, Local<R>>, ev: Event<S, A>)
    requires Simulates(g, m, w) && Alone(g, sch, m, w) && CanDo(g, m, ev) && Undisturbed(g, m, ev)
    requires OwnerCan(g, m, w, ev)
    ensures Alone(g, sch + [ev], Do(g, m, ev), NextWorld(g, m, w, ev))
  {
    hide Simulates, Do, CanDo, After, Can, LegalFrom, RunFrom, Observed, ShownBy, Project, Calling, Switch, NextWorld;
    hide InCall, Lookup, Owner, AsLocal, OwnerCan;
    ActiveKept(g, m, ev);
    ProjectSnoc(sch, ev, 0);
    var m', w', more := Do(g, m, ev), NextWorld(g, m, w, ev), sch + [ev];
    forall e: nat
      ensures LegalFrom(g, Unborn, Project(more, e))
      ensures ShownBy(m'.log, e) == Observed(g, Unborn, Project(more, e))
      ensures e in m'.live ==> e in w' && w'[e] == RunFrom(g, Unborn, Project(more, e))
      ensures e !in m'.born ==> Project(more, e) == []
    {
      AloneFor(g, sch, m, w, ev, e);
    }
  }

  /** Over every legal schedule the machine simulates its environments, each run
      alone on its own part of the schedule. */
  lemma {:induction false} ScheduleSimulates<S, A, O, R>(g: Game<S, A, O, R>, sch: seq<Event<S, A>>) returns (w: map<nat, Local<R>>)
    requires Legal(g, sch) && Quiet(g, sch)
    ensures Simulates(g, Final(g, sch), w) && Alone(g, sch, Final(g, sch), w)
    decreases |sch|
  {
    hide Simulates, Alone, Do, CanDo;
    if sch == [] {
      w := map[];
      EmptySchedule(g, sch);
    } else {
      var front, ev := sch[..|sch| - 1], sch[|sch| - 1];
      var before := ScheduleSimulates(g, front);
      StepSimulates(g, Final(g, front), before, ev);
      AloneStep(g, front, Final(g, front), before, ev);
      w := NextWorld(g, Final(g, front), before, ev);
      assert sch == front + [ev];
    }
  }

  lemma EmptySchedule<S, A, O, R>(g: Game<S, A, O, R>, sch: seq<Event<S, A>>)
    requires sch == []
    ensures Legal(g, sch) && Simulates<S, A, O, R>(g, Final(g, sch), map[]) && Alone(g, sch, Final(g, sch), map[])
  {
  }

  /** Isolation. Whatever the schedule of threads over environments, each
      environment has gone through exactly its own part of the schedule, has
      shown what that part shows when run alone, and, while it lives, is in the
      state that part leads to alone. */
  lemma EnvironmentsIsolated<S, A, O, R>(g: Game<S, A, O, R>, sch: seq<Event<S, A>>, e: nat)
    requires Legal(g, sch) && Quiet(g, sch)
    ensures LegalFrom(g, Unborn, Project(sch, e))
    ensures ShownBy(Final(g, sch).log, e) == Observed(g, Unborn, Project(sch, e))
    ensures e in Final(g, sch).live ==> Matches(g, Final(g, sch), e, RunFrom(g, Unborn, Project(sch, e)))
  {
    hide Matches, Apart, Do, CanDo, After, Can, Switch, Project, RunFrom, LegalFrom, Observed, ShownBy, Legal, Final;
    var w := ScheduleSimulates(g, sch);
  }

  lemma {:induction false} NotCalledAtRest<S, A, O, R>(g: Game<S, A, O, R>, sch: seq<Event<S, A>>, e: nat)
    requires Legal(g, sch) && Quiet(g, sch) && e !in Calling(sch).Values
    ensures LegalFrom(g, Unborn, Project(sch, e)) && AtRest(RunFrom(g, Unborn, Project(sch, e)))
    decreases |sch|
  {
    hide Apart, Do, After, Can, LegalFrom, RunFrom, HoldsMemory, Tame, Proper;
    var w := ScheduleSimulates(g, sch);
    var m := Final(g, sch);
    if e in m.live {
      EnvironmentsIsolated(g, sch, e);
      BusyIsInCall(m, e);
    } else if sch == [] {
      NothingRun(g);
    } else {
      var front, ev := sch[..|sch| - 1], sch[|sch| - 1];
      var w0 := ScheduleSimulates(g, front);
      EndedEarlier(g, front, Final(g, front), w0, ev, e);
      assert sch == front + [ev];
      ProjectSnoc(front, ev, e);
      assert Project(sch, e) == Project(front, e);
      NotCalledAtRest(g, front, e);
    }
  }

  lemma BusyIsInCall<O, R>(m: Machine<O, R>, e: nat)
    ensures Busy(m, e) <==> e in InCall(m).Values
  {
    if Busy(m, e) {
      var t :| t in m.active && m.active[t].env == e;
      assert InCall(m)[t] == e;
    }
  }

  lemma NothingRun<S, A, O, R>(g: Game<S, A, O, R>)
    ensures LegalFrom<S, A, O, R>(g, Unborn, []) && AtRest(RunFrom<S, A, O, R>(g, Unborn, []))
  {
  }

  /** An environment that is not live after an event either ended with it, at
      rest, or had no part in it. */
  lemma EndedEarlier<S, A, O, R>(
    g: Game<S, A, O, R>, sch: seq<Event<S, A>>, m: Machine<O, R>, w: map<nat, Local<R>>, ev: Event<S, A>, e: nat)
    requires Simulates(g, m, w) && Alone(g, sch, m, w) && CanDo(g, m, ev) && Undisturbed(g, m, ev) && e !in Do(g, m, ev).live
    ensures e !in Calling(sch).Values
    ensures Owner(ev, Calling(sch)) == e ==> AsLocal(ev) == []
  {
    hide Matches, Apart, Do, Project, RunFrom, LegalFrom, Observed, ShownBy;
    ShapeKept(g, m, ev);
    BusyIsInCall(m, e);
    if !ev.NleEnd? {
      OwnerMatches(g, m, w, ev);
    }
  }

  /** What an environment shows is decided by the calls its owner made on it: two
      environments, in two schedules or in one, on which the same calls were
      made show the same observations, whatever the others did in between. */
  lemma CallsDecideObservations<S, A, O, R>(
    g: Game<S, A, O, R>, sch: seq<Event<S, A>>, e: nat, sch': seq<Event<S, A>>, e': nat)
    requires Legal(g, sch) && Legal(g, sch') && Quiet(g, sch) && Quiet(g, sch')
    requires Calls(Project(sch, e)) == Calls(Project(sch', e'))
    requires e !in Calling(sch).Values && e' !in Calling(sch').Values
    ensures ShownBy(Final(g, sch).log, e) == ShownBy(Final(g, sch').log, e')
  {
    EnvironmentsIsolated(g, sch, e);
    EnvironmentsIsolated(g, sch', e');
    NotCalledAtRest(g, sch, e);
    NotCalledAtRest(g, sch', e');
    CallsDetermineRun(g, Unborn, Project(sch, e), Project(sch', e'));
  }
}
