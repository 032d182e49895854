// What a game is told over a run, from the run's own history: blocks that are the
// arena's, and what was last written to a place.

module Memory {
  import opened Arena
  import opened LevelFiles
  import opened Environment

  /** A run in which nothing is put back. */
  predicate NoRestore<S, A>(evs: seq<LEvent<S, A>>) { forall i | 0 <= i < |evs| :: !evs[i].Restore? }

  lemma NoRestoreExact<S, A>(evs: seq<LEvent<S, A>>)
    ensures NoRestore(evs) <==> forall h :: Restore(h) !in evs
  {
  }

  /** The operation of a run's last event. */
  function LastOp<S, A, O, R>(g: Game<S, A, O, R>, l: Local<R>, evs: seq<LEvent<S, A>>): Op<O>
    requires LegalFrom(g, l, evs) && evs != []
  {
    var at := RunFrom(g, l, evs[..|evs| - 1]);
    if evs[|evs| - 1].Tick? && at.Local? then g.Next(at.env.regs) else Free(0)
  }

  // ---- allocations ----

  /** The requests of a run, in order. */
  function Requested<S, A, O, R>(g: Game<S, A, O, R>, l: Local<R>, evs: seq<LEvent<S, A>>): seq<UInt>
    requires LegalFrom(g, l, evs)
  {
    if evs == [] then []
    else
      var op := LastOp(g, l, evs);
      Requested(g, l, evs[..|evs| - 1]) + if op.Alloc? then [op.lth] else []
  }

  /** The answers to a run's requests are the arena's, from where its bump pointer was. */
  lemma {:induction false} AllocatedIsAnswered<S, A, O, R>(g: Game<S, A, O, R>, l: Local<R>, evs: seq<LEvent<S, A>>)
    requires l.Local? && LegalFrom(g, l, evs) && NoRestore(evs)
    ensures var requests, told := Requested(g, l, evs), Allocated(g, l, evs);
            && RunFrom(g, l, evs).Local? && |told| == |requests|
            && RunFrom(g, l, evs).env.used == UsedAfterAll(l.env.used, g.cap, requests)
            && forall k | 0 <= k < |told| ::
                 match Answer(l.env.used, g.cap, requests, k)
                 case Block(offset) => told[k] == offset
                 case OutOfMemory => told[k] < 0
    decreases |evs|
  {
    if evs != [] {
      var front, ev := evs[..|evs| - 1], evs[|evs| - 1];
      AllocatedIsAnswered(g, l, front);
      LastRequest(g, l, evs);
      UsedByEvent(g, RunFrom(g, l, front), ev);
      hide Bump, UsedAfter, UsedAfterAll, Answer, After, Can, Requested, Allocated;
      if LastOp(g, l, evs).Alloc? {
        AnswersSnoc(l.env.used, g.cap, Requested(g, l, front), LastOp(g, l, evs).lth);
      }
    } else {
      assert Requested(g, l, evs) == [];
    }
  }

  lemma LastRequest<S, A, O, R>(g: Game<S, A, O, R>, l: Local<R>, evs: seq<LEvent<S, A>>)
    requires LegalFrom(g, l, evs) && evs != [] && RunFrom(g, l, evs[..|evs| - 1]).Local?
    ensures var front, op := evs[..|evs| - 1], LastOp(g, l, evs);
            if op.Alloc? then
              && Requested(g, l, evs) == Requested(g, l, front) + [op.lth]
              && Allocated(g, l, evs) == Allocated(g, l, front)
                                         + [Address(RunFrom(g, l, front).env.used, g.cap, op.lth)]
            else
              Requested(g, l, evs) == Requested(g, l, front) && Allocated(g, l, evs) == Allocated(g, l, front)
  {
    var front := evs[..|evs| - 1];
    assert Requested(g, l, front) + [] == Requested(g, l, front);
    assert Allocated(g, l, front) + [] == Allocated(g, l, front);
  }

  lemma UsedByEvent<S, A, O, R>(g: Game<S, A, O, R>, l: Local<R>, ev: LEvent<S, A>)
    requires l.Local? && Can(g, l, ev) && !ev.Restore?
    ensures var l', op := After(g, l, ev), g.Next(l.env.regs);
            l'.Local? && l'.env.used == if ev.Tick? && op.Alloc? then UsedAfter(l.env.used, g.cap, op.lth) else l.env.used
  {
  }

  lemma AnswersSnoc(used: nat, cap: nat, requests: seq<UInt>, lth: UInt)
    ensures UsedAfterAll(used, cap, requests + [lth]) == UsedAfter(UsedAfterAll(used, cap, requests), cap, lth)
    ensures Answer(used, cap, requests + [lth], |requests|) == Bump(UsedAfterAll(used, cap, requests), cap, lth)
    ensures forall k | 0 <= k < |requests| :: Answer(used, cap, requests + [lth], k) == Answer(used, cap, requests, k)
  {
    var more := requests + [lth];
    assert more[..|requests|] == requests;
    assert forall k | 0 <= k < |requests| :: more[..k] == requests[..k];
  }

  /** Two blocks that the game was told of, in any run that puts nothing back, however
      much it freed in between: both lie in the arena in use, behind what was in use
      before, and they do not overlap. */
  lemma AllocationsDisjoint<S, A, O, R>(g: Game<S, A, O, R>, l: Local<R>, evs: seq<LEvent<S, A>>, j: nat, k: nat)
    requires l.Local? && LegalFrom(g, l, evs) && NoRestore(evs)
    requires l.env.used <= g.cap && l.env.used % ALIGN == 0
    requires j < k < |Allocated(g, l, evs)| && k < |Requested(g, l, evs)|
    requires Allocated(g, l, evs)[j] >= 0 && Allocated(g, l, evs)[k] >= 0
    requires Requested(g, l, evs)[j] <= UINT - ALIGN && Requested(g, l, evs)[k] <= UINT - ALIGN
    ensures var told, requests := Allocated(g, l, evs), Requested(g, l, evs);
            && told[j] % ALIGN == 0 && told[k] % ALIGN == 0
            && l.env.used <= told[j] && told[j] + requests[j] <= told[k]
            && RunFrom(g, l, evs).Local? && told[k] + requests[k] <= RunFrom(g, l, evs).env.used <= g.cap
  {
    AllocatedIsAnswered(g, l, evs);
    BlocksDisjoint(l.env.used, g.cap, Requested(g, l, evs), j, k);
  }

  /** And the game may use what it has: its globals, and every byte of every block it
      was told of. */
  lemma BlocksUsable<S, A, O, R>(g: Game<S, A, O, R>, l: Local<R>, evs: seq<LEvent<S, A>>, k: nat, i: nat, v: int)
    requires l.Local? && LegalFrom(g, l, evs) && NoRestore(evs) && WellFormed(g, l.env) && l.env.used % ALIGN == 0
    requires k < |Allocated(g, l, evs)| && k < |Requested(g, l, evs)|
    requires Allocated(g, l, evs)[k] >= 0 && i < Requested(g, l, evs)[k] <= UINT - ALIGN
    ensures var e, here := RunFrom(g, l, evs), Heap(Allocated(g, l, evs)[k] + i);
            && e.Local? && CanMicro(e.env, Op<O>.Load(here)) && CanMicro(e.env, Op<O>.Store(here, v))
            && forall off: nat | off < |g.template| ::
                 CanMicro(e.env, Op<O>.Load(Global(off))) && CanMicro(e.env, Op<O>.Store(Global(off), v))
  {
    AllocatedIsAnswered(g, l, evs);
    HistoryHeld(g, l, evs);
    AnswerIsBetween(l.env.used, g.cap, Requested(g, l, evs), k);
  }

  // ---- what was last written ----

  /** What a run last stored at a place, or what was there. */
  function LastStored<S, A, O, R>(g: Game<S, A, O, R>, l: Local<R>, evs: seq<LEvent<S, A>>, ref: Ref, was: int): int
    requires LegalFrom(g, l, evs)
  {
    if evs == [] then was
    else
      var op := LastOp(g, l, evs);
      if op.Store? && op.ref == ref then op.val else LastStored(g, l, evs[..|evs| - 1], ref, was)
  }

  /** What it last stored in the shared variable. */
  function LastDepth<S, A, O, R>(g: Game<S, A, O, R>, l: Local<R>, evs: seq<LEvent<S, A>>, was: int): int
    requires LegalFrom(g, l, evs)
  {
    if evs == [] then was
    else
      var op := LastOp(g, l, evs);
      if op.StoreDepth? then op.val else LastDepth(g, l, evs[..|evs| - 1], was)
  }

  function InDir(dir: Dir, name: Name): Maybe { if name in dir then Present(dir[name]) else Absent }

  /** What it last made of a file. */
  function LastFile<S, A, O, R>(g: Game<S, A, O, R>, l: Local<R>, evs: seq<LEvent<S, A>>, name: Name, was: Maybe): Maybe
    requires LegalFrom(g, l, evs)
  {
    if evs == [] then was
    else
      var op := LastOp(g, l, evs);
      if op.WriteFile? && op.name == name then Present(op.data)
      else if op.Unlink? && op.name == name then Absent
      else LastFile(g, l, evs[..|evs| - 1], name, was)
  }

  /** Every place holds what the run last wrote to it. */
  ghost predicate HoldsHistory<S, A, O, R>(g: Game<S, A, O, R>, l: Local<R>, evs: seq<LEvent<S, A>>)
    requires l.Local? && LegalFrom(g, l, evs) && RunFrom(g, l, evs).Local?
  {
    var was, now := l.env, RunFrom(g, l, evs).env;
    && |now.globals| == |was.globals| && |now.heap| == |was.heap|
    && (forall off: nat | off < |now.globals| :: now.globals[off] == LastStored(g, l, evs, Global(off), was.globals[off]))
    && (forall off: nat | off < |now.heap| :: now.heap[off] == LastStored(g, l, evs, Heap(off), was.heap[off]))
    && now.depth == LastDepth(g, l, evs, was.depth)
    && (forall name :: InDir(now.dir, name) == LastFile(g, l, evs, name, InDir(was.dir, name)))
  }

  lemma {:induction false} HistoryHeld<S, A, O, R>(g: Game<S, A, O, R>, l: Local<R>, evs: seq<LEvent<S, A>>)
    requires l.Local? && LegalFrom(g, l, evs) && NoRestore(evs)
    ensures RunFrom(g, l, evs).Local? && HoldsHistory(g, l, evs)
    decreases |evs|
  {
    if evs != [] {
      var front, ev := evs[..|evs| - 1], evs[|evs| - 1];
      HistoryHeld(g, l, front);
      if ev.Tick? {
        WritesExactly(g, RunFrom(g, l, front).env, LastOp(g, l, evs));
      }
      hide Micro, CanMicro, LegalFrom, RunFrom, Read, Write;
      LastWritten(g, l, evs);
    }
  }

  /** The histories of a run, after its last event. */
  lemma LastWritten<S, A, O, R>(g: Game<S, A, O, R>, l: Local<R>, evs: seq<LEvent<S, A>>)
    requires LegalFrom(g, l, evs) && evs != []
    ensures var front, op := evs[..|evs| - 1], LastOp(g, l, evs);
            && LegalFrom(g, l, front)
            && (forall ref, was :: LastStored(g, l, evs, ref, was)
                                   == if op.Store? && op.ref == ref then op.val else LastStored(g, l, front, ref, was))
            && (forall was :: LastDepth(g, l, evs, was) == if op.StoreDepth? then op.val else LastDepth(g, l, front, was))
            && (forall name, was :: LastFile(g, l, evs, name, was)
                                    == if op.WriteFile? && op.name == name then Present(op.data)
                                       else if op.Unlink? && op.name == name then Absent
                                       else LastFile(g, l, front, name, was))
  {
  }

  /** One micro-step writes what its operation says and nothing else. */
  lemma WritesExactly<S, A, O, R>(g: Game<S, A, O, R>, e: Env<R>, op: Op<O>)
    requires op == g.Next(e.regs) && CanMicro(e, op)
    ensures var e' := Micro(g, e);
            && |e'.globals| == |e.globals| && |e'.heap| == |e.heap|
            && (forall i: nat | i < |e.globals| :: e'.globals[i] == if op.Store? && op.ref == Global(i) then op.val else e.globals[i])
            && (forall i: nat | i < |e.heap| :: e'.heap[i] == if op.Store? && op.ref == Heap(i) then op.val else e.heap[i])
            && e'.depth == (if op.StoreDepth? then op.val else e.depth)
            && (forall name :: InDir(e'.dir, name)
                               == if op.WriteFile? && op.name == name then Present(op.data)
                                  else if op.Unlink? && op.name == name then Absent else InDir(e.dir, name))
  {
    match op
    case Store(ref, _) =>
    case WriteFile(_, _) =>
    case Unlink(_) =>
    case _ =>
  }

  /** The answer to an operation, from the history before it. */
  ghost function Due<S, A, O, R>(g: Game<S, A, O, R>, l: Local<R>, evs: seq<LEvent<S, A>>, op: Op<O>): int
    requires l.Local? && LegalFrom(g, l, evs)
  {
    match op
    case Load(Global(off)) => if off < |l.env.globals| then LastStored(g, l, evs, op.ref, l.env.globals[off]) else 0
    case Load(Heap(off)) => if off < |l.env.heap| then LastStored(g, l, evs, op.ref, l.env.heap[off]) else 0
    case LoadDepth => LastDepth(g, l, evs, l.env.depth)
    case ReadFile(name, pos) =>
      (match LastFile(g, l, evs, name, InDir(l.env.dir, name))
       case Present(data) => if pos < |data| then data[pos] else EOF
       case Absent => EOF)
    case Alloc(lth) =>
      var requests := Requested(g, l, evs) + [lth];
      (match Answer(l.env.used, g.cap, requests, |requests| - 1)
       case Block(offset) => offset
       case OutOfMemory => PANIC)
    case _ => 0
  }

  /** In every run that puts nothing back, what an operation tells the game is what its
      own history says: what it last stored, the file as it last wrote it, the block
      that the arena owes it. */
  lemma ToldWhatIsDue<S, A, O, R>(g: Game<S, A, O, R>, l: Local<R>, evs: seq<LEvent<S, A>>)
    requires l.Local? && LegalFrom(g, l, evs) && NoRestore(evs) && Can(g, RunFrom(g, l, evs), Tick)
    ensures RunFrom(g, l, evs).Local? && After(g, RunFrom(g, l, evs), Tick).Local?
    ensures var at := RunFrom(g, l, evs);
            After(g, at, Tick).env.regs == g.Cont(at.env.regs, Due(g, l, evs, g.Next(at.env.regs)))
  {
    HistoryHeld(g, l, evs);
    AllocatedIsAnswered(g, l, evs);
    var op := g.Next(RunFrom(g, l, evs).env.regs);
    hide LegalFrom, RunFrom, LastStored, LastDepth, LastFile, Requested, Allocated, Bump, UsedAfter, UsedAfterAll;
    match op
    case ReadFile(name, _) =>
      assert InDir(RunFrom(g, l, evs).env.dir, name) == LastFile(g, l, evs, name, InDir(l.env.dir, name));
    case Alloc(lth) => AnswersSnoc(l.env.used, g.cap, Requested(g, l, evs), lth);
    case _ =>
  }

  /** A new environment: the globals are the compiler's, the arena is empty and zero,
      the files are those the caller has put there, and there is no snapshot. */
  lemma StartsFresh<S, A, O, R>(g: Game<S, A, O, R>, seed: S, files: Dir)
    ensures var l := After<S, A, O, R>(g, Unborn, Start(seed, files));
            && l.Local? && l.running && l.snaps == map[] && l.env.regs == g.Init(seed)
            && l.env.globals == g.template && l.env.dir == files && l.env.depth == 0
            && l.env.used == 0 && |l.env.heap| == g.cap && forall off | 0 <= off < g.cap :: l.env.heap[off] == 0
  {
  }
}
