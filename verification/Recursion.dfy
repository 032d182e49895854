// The vision code's recursion, and the variable that guards it: exactly the calls
// made one at a time, each environment in its own directory, are without harm.

module Recursion {
  import opened LevelFiles
  import opened Environment
  import opened Isolation
  import opened Sharing

  const LIMIT: nat := 64
  const ROWS: nat := 20   // from one edge of the map to the other, ROWNO - 1
  const FINGERS: nat := 4 // openings in the first row, each looked into in turn

  // Where a call is: it writes its record file anew, then looks around.
  const CLEAR: nat := 0
  const SAVE: nat := 1
  const RESET: nat := 2 // view_from is entered
  const GUARD: nat := 3 // a side is entered: the guard is looked at
  const COUNT: nat := 4 // it let the side through, which is counted:
  const ENTER: nat := 5 // a load and a store
  const LEAVE: nat := 6 // a side is done: a load
  const LEFT: nat := 7  // and a store
  const DONE: nat := 8

  /** `level` sides have been entered and not left, one to a row; `finger` openings
      of the first are done; `seen` is what was last loaded; `cut` says that the
      guard sent a side back. */
  datatype Sight = Sight(pc: nat, level: nat, finger: nat, seen: int, cut: bool)

  const FRESH: Sight := Sight(CLEAR, 0, 0, 0, false)

  /** Each call rewrites a file and then looks as far as the map goes: the first side
      has four openings, and behind each it is row after row to the map's edge.
      It shows whether the guard cut a side short. The variable is volatile: the
      guard loads it, and counting up or down loads it again and stores. */
  function Recursing<S, A>(): Game<S, A, bool, Sight> {
    Game([], 0,
         (globals: seq<int>) => [],
         (s: S) => FRESH,
         (r: Sight, a: A) => FRESH,
         (r: Sight) => NextOp(r),
         (r: Sight, v: int) => Continue(r, v))
  }

  function NextOp(r: Sight): Op<bool> {
    if r.pc == CLEAR then Unlink(RECORD)
    else if r.pc == SAVE then WriteFile(RECORD, [])
    else if r.pc == RESET then StoreDepth(0)
    else if r.pc == GUARD || r.pc == COUNT || r.pc == LEAVE then LoadDepth
    else if r.pc == ENTER then StoreDepth(r.seen + 1)
    else if r.pc == LEFT then StoreDepth(r.seen - 1)
    else Yield(r.cut)
  }

  function Continue(r: Sight, v: int): Sight {
    if r.pc == CLEAR then r.(pc := SAVE)
    else if r.pc == SAVE then r.(pc := RESET)
    else if r.pc == RESET then r.(pc := GUARD)
    else if r.pc == GUARD then if v >= LIMIT then Back(r.(cut := true)) else r.(pc := COUNT)
    else if r.pc == COUNT then r.(pc := ENTER, seen := v)
    else if r.pc == ENTER then r.(pc := if r.level + 1 < ROWS then GUARD else LEAVE, level := r.level + 1)
    else if r.pc == LEAVE then r.(pc := LEFT, seen := v)
    else Back(r.(level := if r.level > 0 then r.level - 1 else 0))
  }

  /** Back in the innermost side still open, the next opening is looked into. */
  function Back(r: Sight): Sight {
    if r.level == 0 then r.(pc := DONE)
    else if r.level == 1 && r.finger + 1 < FINGERS then r.(pc := GUARD, finger := r.finger + 1)
    else r.(pc := LEAVE)
  }

  predicate Good(r: Sight) {
    && r.pc <= DONE && r.finger < FINGERS
    && (r.pc <= RESET ==> r.level == 0)
    && (r.pc <= ENTER ==> r.level < ROWS)
    && (r.pc == LEAVE || r.pc == LEFT ==> 0 < r.level <= ROWS)
  }

  /** The micro-steps a call can still take, whatever it reads. */
  function Remaining(r: Sight): nat
    requires Good(r)
  {
    var later := (FINGERS - r.finger) * (5 * ROWS + 10);
    if r.pc <= RESET then later + 5 * ROWS + 10 - r.pc
    else if r.pc <= ENTER then later + 3 * (ROWS - r.level) + 2 * ROWS + 2 - (r.pc - GUARD)
    else if r.pc == LEAVE then later + 2 * r.level
    else if r.pc == LEFT then later + 2 * r.level - 1
    else 0
  }

  lemma ContinueGood(r: Sight, v: int)
    requires Good(r) && !NextOp(r).Yield?
    ensures Good(Continue(r, v)) && Remaining(Continue(r, v)) < Remaining(r)
    ensures r.cut ==> Continue(r, v).cut
  {
  }

  // ---- such a game alone ----

  /** Undisturbed, the variable says how many sides are open. */
  predicate Counted(r: Sight, depth: int) {
    && Good(r)
    && (r.pc > RESET && r.pc < DONE ==> depth == r.level)
    && (r.pc == ENTER || r.pc == LEFT ==> r.seen == r.level)
  }

  /** No environment alone is ever cut short, and once its first call has written
      the record it is there whenever nobody is in a call. */
  ghost predicate Unharmed(l: Local<Sight>) {
    l.Local? ==>
      && !l.env.regs.cut
      && (l.running ==> Counted(l.env.regs, l.env.depth))
      && (!l.running || l.env.regs.pc > SAVE ==> RECORD in l.env.dir)
      && forall h | h in l.snaps :: !l.snaps[h].regs.cut && (IsSnapshotFile(RECORD, LockBase([])) ==> RECORD in l.snaps[h].files)
  }

  lemma StepUnharmed<S, A>(l: Local<Sight>, ev: LEvent<S, A>)
    requires Can(Recursing<S, A>(), l, ev) && Unharmed(l)
    ensures Unharmed(After(Recursing<S, A>(), l, ev))
  {
    hide IsSnapshotFile, LockBase;
    match ev
    case Start(_, _) =>
    case Enter(_) =>
    case Tick => TickUnharmed<S, A>(l);
    case Leave =>
    case TakeSnapshot(h) =>
    case Restore(h) =>
  }

  lemma TickUnharmed<S, A>(l: Local<Sight>)
    requires Can(Recursing<S, A>(), l, Tick) && Unharmed(l)
    ensures Unharmed(After(Recursing<S, A>(), l, Tick))
  {
    hide IsSnapshotFile, LockBase;
    ContinueGood(l.env.regs, if NextOp(l.env.regs).LoadDepth? then l.env.depth else 0);
  }

  lemma {:induction false} AloneUnharmed<S, A>(evs: seq<LEvent<S, A>>)
    requires LegalFrom(Recursing<S, A>(), Unborn, evs)
    ensures Unharmed(RunFrom(Recursing<S, A>(), Unborn, evs))
    decreases |evs|
  {
    if evs != [] {
      hide Unharmed, Can, After;
      AloneUnharmed(evs[..|evs| - 1]);
      StepUnharmed(RunFrom(Recursing<S, A>(), Unborn, evs[..|evs| - 1]), evs[|evs| - 1]);
    } else {
      assert RunFrom(Recursing<S, A>(), Unborn, evs) == Unborn;
    }
  }

  /** It stores to the variable before it reads it in every call. */
  lemma {:induction false} RunningHasReset<S, A>(evs: seq<LEvent<S, A>>)
    requires LegalFrom(Recursing<S, A>(), Unborn, evs)
    ensures var l := RunFrom(Recursing<S, A>(), Unborn, evs);
            l.Local? && l.running && l.env.regs.pc > RESET ==> HasReset(Recursing<S, A>(), Unborn, evs)
    decreases |evs|
  {
    if evs != [] {
      RunningHasReset(evs[..|evs| - 1]);
    }
  }

  lemma RecursingResetsFirst<S(!new), A(!new)>()
    ensures ResetsFirst(Recursing<S, A>())
  {
    var g := Recursing<S, A>();
    forall evs: seq<LEvent<S, A>> | LegalFrom(g, Unborn, evs) && Can(g, RunFrom(g, Unborn, evs), Tick)
      ensures g.Next(RunFrom(g, Unborn, evs).env.regs).LoadDepth? ==> HasReset(g, Unborn, evs)
    {
      RunningHasReset(evs);
    }
  }

  // ---- running it ----

  /** Thread `t` is in a call. */
  ghost predicate InACall<S, A>(sch: seq<Event<S, A>>, t: nat) {
    && Legal(Recursing<S, A>(), sch)
    && var m := Final(Recursing<S, A>(), sch);
       t in m.active && t in m.tls && Calling(sch) == InCall(m)
  }

  ghost function Regs<S, A>(sch: seq<Event<S, A>>, t: nat): Sight
    requires InACall(sch, t)
  {
    Final(Recursing<S, A>(), sch).active[t].regs
  }

  ghost function Depth<S, A>(sch: seq<Event<S, A>>): int
    requires Legal(Recursing<S, A>(), sch)
  {
    Final(Recursing<S, A>(), sch).outside.depth
  }

  /** `more` is `sch` and then micro-steps of `t` only. */
  ghost predicate Ran<S, A>(sch: seq<Event<S, A>>, t: nat, more: seq<Event<S, A>>) {
    && InACall(sch, t) && InACall(more, t)
    && View(more) == View(sch) && Calling(more) == Calling(sch)
    && (forall e: nat :: Calls(Project(more, e)) == Calls(Project(sch, e)))
    && (forall e: nat | e != Calling(sch)[t] :: Project(more, e) == Project(sch, e))
    && var m, m' := Final(Recursing<S, A>(), sch), Final(Recursing<S, A>(), more);
       m' == m.(outside := m'.outside,
                active := m.active[t := m.active[t].(regs := m'.active[t].regs)])
  }

  lemma RanOn<S, A>(a: seq<Event<S, A>>, t: nat, b: seq<Event<S, A>>, c: seq<Event<S, A>>)
    requires Ran(a, t, b) && Ran(b, t, c)
    ensures Ran(a, t, c) && InACall(c, t)
  {
    hide Legal, Final, View, Calling, Project, Calls, InCall;
  }

  lemma {:induction false} RunOne<S, A>(sch: seq<Event<S, A>>, t: nat) returns (more: seq<Event<S, A>>)
    requires InACall(sch, t) && !NextOp(Regs(sch, t)).Yield?
    ensures more == sch + [Run(t)] && Ran(sch, t, more) && InACall(more, t)
    ensures var depth, r := Depth(sch), Regs(sch, t);
            && Regs(more, t) == Continue(r, if NextOp(r).LoadDepth? then depth else 0)
            && Depth(more) == if NextOp(r).StoreDepth? then NextOp(r).val else depth
  {
    var g, m := Recursing<S, A>(), Final(Recursing<S, A>(), sch);
    more := sch + [Run(t)];
    assert more[..|sch|] == sch;
    MicroStep<S, A>(m, t);
    forall e: nat
      ensures Calls(Project(more, e)) == Calls(Project(sch, e))
      ensures e != Calling(sch)[t] ==> Project(more, e) == Project(sch, e)
    {
      RunProjects(sch, t, e);
    }
    ActiveKept<S, A, bool, Sight>(g, m, Run(t));
    assert Final(g, more) == DoRun(g, m, t);
    hide Project, Calls, DoRun, NextOp, Continue, InCall, CanDo;
  }

  lemma MicroStep<S, A>(m: Machine<bool, Sight>, t: nat)
    requires t in m.active && t in m.tls && !NextOp(m.active[t].regs).Yield?
    ensures CanDo<S, A, bool, Sight>(Recursing<S, A>(), m, Run(t))
    ensures var m', r := DoRun(Recursing<S, A>(), m, t), m.active[t].regs;
            && m' == m.(outside := m'.outside, active := m.active[t := m.active[t].(regs := m'.active[t].regs)])
            && m'.active[t].regs == Continue(r, if NextOp(r).LoadDepth? then m.outside.depth else 0)
            && m'.outside.depth == if NextOp(r).StoreDepth? then NextOp(r).val else m.outside.depth
  {
    hide Continue;
  }

  lemma RunProjects<S, A>(sch: seq<Event<S, A>>, t: nat, e: nat)
    requires t in Calling(sch)
    ensures Calls(Project(sch + [Run(t)], e)) == Calls(Project(sch, e))
    ensures Project(sch + [Run(t)], e) == Project(sch, e) + if e == Calling(sch)[t] then [Tick] else []
  {
    ProjectSnoc(sch, Run(t), e);
    CallsSnoc(Project(sch, e), Tick);
    assert Project(sch, e) + [] == Project(sch, e);
  }

  lemma CallsSnoc<S, A>(evs: seq<LEvent<S, A>>, ev: LEvent<S, A>)
    ensures Calls(evs + [ev]) == Calls(evs) + if ev.Tick? || ev.Leave? then [] else [ev]
  {
    assert (evs + [ev])[..|evs|] == evs;
  }

  /** Whatever the others do, a call comes to its end. */
  lemma {:induction false} Finish<S, A>(sch: seq<Event<S, A>>, t: nat) returns (more: seq<Event<S, A>>)
    requires InACall(sch, t) && Good(Regs(sch, t))
    ensures sch == more || Ran(sch, t, more)
    ensures InACall(more, t) && NextOp(Regs(more, t)).Yield?
    ensures Regs(sch, t).cut ==> Regs(more, t).cut
    decreases Remaining(Regs(sch, t))
  {
    var depth := Depth(sch);
    hide Legal, Final, InACall, Ran, Continue, Good, Remaining;
    more := sch;
    if !NextOp(Regs(sch, t)).Yield? {
      var next := RunOne(sch, t);
      ContinueGood(Regs(sch, t), if NextOp(Regs(sch, t)).LoadDepth? then depth else 0);
      more := Finish(next, t);
      if more != next {
        RanOn(sch, t, next, more);
      }
    }
  }

  // ---- the same calls, made on the recursing game ----

  /** What of a machine decides which calls can be made. */
  datatype Shape = Shape(
    calls: map<nat, (nat, int)>, live: map<nat, Layout>, born: set<nat>, parked: set<int>, handles: map<nat, set<nat>>)

  function ShapeOf<O, R>(m: Machine<O, R>): Shape {
    Shape(CallsOf(m.active), m.live, m.born, m.parked.Keys, HandlesOf(m.snaps))
  }

  function CallsOf<R>(active: map<nat, Activation<R>>): map<nat, (nat, int)> {
    map t | t in active :: (active[t].env, active[t].nle)
  }

  function HandlesOf<R>(snaps: map<nat, map<nat, Snapshot<R>>>): map<nat, set<nat>> {
    map e | e in snaps :: snaps[e].Keys
  }

  lemma Keys<O, R>(m: Machine<O, R>)
    ensures CallsOf(m.active).Keys == m.active.Keys && HandlesOf(m.snaps).Keys == m.snaps.Keys
    ensures forall t | t in m.active :: CallsOf(m.active)[t] == (m.active[t].env, m.active[t].nle)
    ensures forall e | e in m.snaps :: HandlesOf(m.snaps)[e] == m.snaps[e].Keys
  {
  }

  lemma CallsOfUpdate<R>(active: map<nat, Activation<R>>, t: nat, c: Activation<R>)
    ensures CallsOf(active[t := c]) == CallsOf(active)[t := (c.env, c.nle)]
    ensures CallsOf(active - {t}) == CallsOf(active) - {t}
    ensures t in active && active[t].env == c.env && active[t].nle == c.nle ==> CallsOf(active[t := c]) == CallsOf(active)
  {
  }

  lemma HandlesOfUpdate<R>(snaps: map<nat, map<nat, Snapshot<R>>>, e: nat, s: map<nat, Snapshot<R>>)
    ensures HandlesOf(snaps[e := s]) == HandlesOf(snaps)[e := s.Keys]
  {
  }

  /** What a call needs of it. */
  ghost predicate Allowed<S, A>(s: Shape, ev: Event<S, A>) {
    match ev
    case NleStart(t, e, at, _, _) =>
      && t !in s.calls && e !in s.born && at.ctx != 0
      && forall e' | e' in s.live :: Apart(Recursing<S, A>(), at, s.live[e'])
    case NleStep(t, e, _) => t !in s.calls && e in s.live && Idle(s, e) && s.live[e].ctx in s.parked
    case Run(_) => false
    case Return(t) => t in s.calls
    case NleEnd(t, e) => t !in s.calls && e in s.live && Idle(s, e)
    case FrSnapshot(t, e, _) => t !in s.calls && e in s.live && Idle(s, e) && s.live[e].ctx in s.parked && e in s.handles
    case FrRestore(t, e, h) => t !in s.calls && e in s.live && Idle(s, e) && e in s.handles && h in s.handles[e]
  }

  predicate Idle(s: Shape, e: nat) { forall t | t in s.calls :: s.calls[t].0 != e }

  /** And what it makes of it. */
  function Next<S, A>(s: Shape, ev: Event<S, A>): Shape {
    match ev
    case NleStart(t, e, at, _, _) =>
      s.(calls := s.calls[t := (e, at.ctx)], live := s.live[e := at], born := s.born + {e}, handles := s.handles[e := {}])
    case NleStep(t, e, _) => if e in s.live then s.(calls := s.calls[t := (e, s.live[e].ctx)]) else s
    case Run(_) => s
    case Return(t) => if t in s.calls then s.(calls := s.calls - {t}, parked := s.parked + {s.calls[t].1}) else s
    case NleEnd(_, e) => if e in s.live then s.(live := s.live - {e}, parked := s.parked - {s.live[e].ctx}) else s
    case FrSnapshot(_, e, h) => if e in s.handles then s.(handles := s.handles[e := s.handles[e] + {h}]) else s
    case FrRestore(_, e, _) => if e in s.live then s.(parked := s.parked + {s.live[e].ctx}) else s
  }

  lemma IdleIsNotBusy<O, R>(m: Machine<O, R>, e: nat)
    ensures Idle(ShapeOf(m), e) <==> !Busy(m, e)
  {
    var s := ShapeOf(m);
    if t :| t in m.active && m.active[t].env == e {
      assert t in s.calls && s.calls[t].0 == e;
    }
    if t :| t in s.calls && s.calls[t].0 == e {
      assert t in m.active && m.active[t].env == e;
    }
  }

  lemma ApartForAll<S, A, O, R>(g: Game<S, A, O, R>, p: Layout, q: Layout)
    requires Apart(g, p, q)
    ensures Apart(Recursing<S, A>(), p, q)
  {
    var r := Recursing<S, A>();
    forall a ensures !((InBlock(r, p, a) || InArena(r, p, a)) && (InBlock(r, q, a) || InArena(r, q, a))) {
      assert InBlock(r, p, a) ==> InBlock(g, p, a);
    }
  }

  /** Whatever the game, the calls that can be made are allowed by the shape. */
  lemma CanBeMade<S, A, O, R>(g: Game<S, A, O, R>, m: Machine<O, R>, ev: Event<S, A>)
    requires CanDo(g, m, ev) && !ev.Run?
    ensures Allowed(ShapeOf(m), ev)
  {
    hide Apart, Proper;
    if !ev.Return? {
      IdleIsNotBusy(m, ev.env);
    }
    if ev.NleStart? {
      forall e | e in m.live ensures Apart(Recursing<S, A>(), ev.at, m.live[e]) {
        ApartForAll(g, ev.at, m.live[e]);
      }
    }
  }

  lemma CanBeMadeHere<S, A>(m: Machine<bool, Sight>, ev: Event<S, A>)
    requires Allowed(ShapeOf(m), ev)
    requires ev.Return? ==> ev.thread in m.active && NextOp(m.active[ev.thread].regs).Yield?
    ensures CanDo(Recursing<S, A>(), m, ev)
  {
    hide Apart;
    if !ev.Return? {
      IdleIsNotBusy(m, ev.env);
    }
    if ev.NleStart? {
      assert Proper(Recursing<S, A>(), ev.at);
    }
  }

  lemma ShapeAfter<S, A, O, R>(g: Game<S, A, O, R>, m: Machine<O, R>, ev: Event<S, A>)
    requires CanDo(g, m, ev)
    ensures ShapeOf(Do(g, m, ev)) == Next(ShapeOf(m), ev)
  {
    hide Apart, Proper, Tame, Execute, Perform, Fill, Slice, Anchor, Busy, OwnedFiles, Base, CallsOf, HandlesOf;
    var m' := Do(g, m, ev);
    Keys(m);
    match ev
    case NleStart(t, e, _, _, _) =>
      CallsOfUpdate(m.active, t, m'.active[t]);
      HandlesOfUpdate(m.snaps, e, m'.snaps[e]);
      assert m'.snaps[e].Keys == {};
    case NleStep(t, _, _) => CallsOfUpdate(m.active, t, m'.active[t]);
    case Run(t) => CallsOfUpdate(m.active, t, m'.active[t]);
    case Return(t) => CallsOfUpdate(m.active, t, m.active[t]);
    case NleEnd(_, _) =>
    case FrSnapshot(_, e, h) =>
      HandlesOfUpdate(m.snaps, e, m'.snaps[e]);
      assert m'.snaps[e].Keys == m.snaps[e].Keys + {h};
    case FrRestore(_, _, _) =>
  }

  /** All calls going on have just been made. */
  ghost predicate JustCalled<S, A>(sch: seq<Event<S, A>>) {
    && Legal(Recursing<S, A>(), sch)
    && var m := Final(Recursing<S, A>(), sch);
       forall t | t in m.active :: m.active[t].regs == FRESH
  }

  lemma {:induction false} CallsHaveTls<S, A, O, R>(g: Game<S, A, O, R>, sch: seq<Event<S, A>>)
    requires Legal(g, sch)
    ensures Final(g, sch).active.Keys <= Final(g, sch).tls.Keys
    decreases |sch|
  {
    hide CanDo, Do;
    if sch != [] {
      CallsHaveTls(g, sch[..|sch| - 1]);
      CallHasTls(g, Final(g, sch[..|sch| - 1]), sch[|sch| - 1]);
    }
  }

  lemma CallHasTls<S, A, O, R>(g: Game<S, A, O, R>, m: Machine<O, R>, ev: Event<S, A>)
    requires CanDo(g, m, ev) && m.active.Keys <= m.tls.Keys
    ensures Do(g, m, ev).active.Keys <= Do(g, m, ev).tls.Keys
  {
    hide Apart, Proper, Tame, Execute, Perform, Fill, Slice, Anchor, Busy, OwnedFiles, Base, Take;
  }

  lemma InCallNow<S, A>(sch: seq<Event<S, A>>, t: nat)
    requires Legal(Recursing<S, A>(), sch) && t in Final(Recursing<S, A>(), sch).active
    ensures InACall(sch, t)
  {
    hide Legal, Final;
    CallsHaveTls(Recursing<S, A>(), sch);
    UsersAreCalling(Recursing<S, A>(), sch);
  }

  lemma RanShape<S, A>(sch: seq<Event<S, A>>, t: nat, more: seq<Event<S, A>>)
    requires Ran(sch, t, more)
    ensures View(more) == View(sch)
    ensures ShapeOf(Final(Recursing<S, A>(), more)) == ShapeOf(Final(Recursing<S, A>(), sch))
    ensures var m, m' := Final(Recursing<S, A>(), sch), Final(Recursing<S, A>(), more);
            m'.active.Keys == m.active.Keys && forall u | u in m.active && u != t :: m'.active[u] == m.active[u]
  {
    hide Legal, Final, View, Calling, Project, Calls, InCall;
    var m, m' := Final(Recursing<S, A>(), sch), Final(Recursing<S, A>(), more);
    CallsOfUpdate(m.active, t, m'.active[t]);
  }

  lemma ViewSnoc<S, A>(sch: seq<Event<S, A>>, ev: Event<S, A>)
    ensures View(sch + [ev]) == View(sch) + if ev.Run? then [] else [ev]
  {
    assert (sch + [ev])[..|sch|] == sch;
  }

  /** One more call, or the return from one that has come to its end. */
  lemma {:induction false} CallAlso<S, A, O, R>(
    g0: Game<S, A, O, R>, m0: Machine<O, R>, sch: seq<Event<S, A>>, ev: Event<S, A>) returns (more: seq<Event<S, A>>)
    requires CanDo(g0, m0, ev) && !ev.Run?
    requires Legal(Recursing<S, A>(), sch) && ShapeOf(m0) == ShapeOf(Final(Recursing<S, A>(), sch))
    requires var m := Final(Recursing<S, A>(), sch);
             && (ev.Return? ==> ev.thread in m.active && NextOp(m.active[ev.thread].regs).Yield?)
             && forall t | t in m.active && !(ev.Return? && t == ev.thread) :: m.active[t].regs == FRESH
    ensures more == sch + [ev] && CanDo(Recursing<S, A>(), Final(Recursing<S, A>(), sch), ev)
    ensures JustCalled(more) && View(more) == View(sch) + [ev]
    ensures ShapeOf(Final(Recursing<S, A>(), more)) == ShapeOf(Do(g0, m0, ev))
    ensures Final(Recursing<S, A>(), more) == Do(Recursing<S, A>(), Final(Recursing<S, A>(), sch), ev)
  {
    var g, m := Recursing<S, A>(), Final(Recursing<S, A>(), sch);
    CanBeMade(g0, m0, ev);
    CanBeMadeHere(m, ev);
    ShapeAfter(g0, m0, ev);
    ShapeAfter(g, m, ev);
    more := sch + [ev];
    LegalSnoc(g, sch, ev);
    ViewSnoc(sch, ev);
    CalledNow(m, ev);
    hide ShapeOf, Next, CanDo, Do, Legal, Final, View;
  }

  lemma CalledNow<S, A>(m: Machine<bool, Sight>, ev: Event<S, A>)
    requires CanDo(Recursing<S, A>(), m, ev) && !ev.Run?
    requires forall t | t in m.active && !(ev.Return? && t == ev.thread) :: m.active[t].regs == FRESH
    ensures var m' := Do(Recursing<S, A>(), m, ev); forall t | t in m'.active :: m'.active[t].regs == FRESH
  {
    hide Apart, Proper, Tame, Execute, Perform, Fill, Slice, Anchor, Busy, OwnedFiles, Base, Take;
  }

  /** Whatever the game, the calls made on it can be made on the recursing game. */
  lemma {:induction false} Follow<S, A, O, R>(g0: Game<S, A, O, R>, sch0: seq<Event<S, A>>) returns (sch: seq<Event<S, A>>)
    requires Legal(g0, sch0)
    ensures JustCalled(sch) && View(sch) == View(sch0)
    ensures ShapeOf(Final(Recursing<S, A>(), sch)) == ShapeOf(Final(g0, sch0))
    decreases |sch0|
  {
    hide CanDo, Do, ShapeOf, Ran, View;
    if sch0 == [] {
      sch := [];
      assert View<S, A>([]) == [] by { NothingSeen<S, A>(); }
      assert ShapeOf(Boot<bool, Sight>()) == ShapeOf(Boot<O, R>()) by { NothingCalled<bool, Sight, O, R>(); }
    } else {
      var front, ev := sch0[..|sch0| - 1], sch0[|sch0| - 1];
      var m0 := Final(g0, front);
      assert sch0 == front + [ev];
      ViewSnoc(front, ev);
      sch := Follow(g0, front);
      ShapeAfter(g0, m0, ev);
      if !ev.Run? {
        if ev.Return? {
          ReturningIsCalled(g0, m0, Final(Recursing<S, A>(), sch), ev.thread);
          InCallNow(sch, ev.thread);
          var called := sch;
          sch := Finish(called, ev.thread);
          if sch != called {
            RanShape(called, ev.thread, sch);
          }
        }
        var before := sch;
        sch := CallAlso(g0, m0, before, ev);
      } else {
        assert View(front) + [] == View(front);
      }
    }
  }

  lemma NothingSeen<S, A>()
    ensures View<S, A>([]) == []
  {
  }

  lemma NothingCalled<O, R, O', R'>()
    ensures ShapeOf(Boot<O, R>()) == ShapeOf(Boot<O', R'>())
  {
  }

  lemma ReturningIsCalled<S, A, O, R>(g0: Game<S, A, O, R>, m0: Machine<O, R>, m: Machine<bool, Sight>, t: nat)
    requires CanDo<S, A, O, R>(g0, m0, Return(t)) && ShapeOf(m0) == ShapeOf(m)
    ensures t in m.active
  {
    Keys(m0);
    Keys(m);
  }

  // ---- lost updates ----

  /** `more` is `sch` and then micro-steps. */
  ghost predicate Went<S, A>(sch: seq<Event<S, A>>, more: seq<Event<S, A>>) {
    && Legal(Recursing<S, A>(), sch) && Legal(Recursing<S, A>(), more)
    && View(more) == View(sch) && Calling(more) == Calling(sch)
    && (forall e: nat :: Calls(Project(more, e)) == Calls(Project(sch, e)))
    && var m, m' := Final(Recursing<S, A>(), sch), Final(Recursing<S, A>(), more);
       m'.live == m.live && m'.log == m.log && m'.born == m.born
  }

  lemma WentOn<S, A>(a: seq<Event<S, A>>, b: seq<Event<S, A>>, c: seq<Event<S, A>>)
    requires Went(a, b) && Went(b, c)
    ensures Went(a, c)
  {
    hide Legal, Final, View, Calling, Project, Calls;
  }

  lemma WentTells<S, A>(sch: seq<Event<S, A>>, more: seq<Event<S, A>>, e: nat)
    requires Went(sch, more)
    ensures View(more) == View(sch) && Calling(more) == Calling(sch) && Calls(Project(more, e)) == Calls(Project(sch, e))
    ensures Legal(Recursing<S, A>(), sch) && Legal(Recursing<S, A>(), more)
    ensures Final(Recursing<S, A>(), more).log == Final(Recursing<S, A>(), sch).log
  {
  }

  /** What the micro-steps of `t` leave alone. */
  lemma {:induction false} RanKeeps<S, A>(sch: seq<Event<S, A>>, t: nat, more: seq<Event<S, A>>, u: nat)
    requires Ran(sch, t, more) && InACall(sch, u) && u != t
    ensures InACall(more, t) && InACall(more, u) && Regs(more, u) == Regs(sch, u) && Went(sch, more)
  {
    hide View, Project, Calls, Legal;
  }

  /** `r` and `r'` are as far, whatever they last loaded. */
  predicate Alike(r: Sight, r': Sight) { r' == r.(seen := r'.seen) }

  /** From the guard to the edge of the map, if the variable stays below the limit. */
  lemma {:induction false} Climb<S, A>(sch: seq<Event<S, A>>, t: nat) returns (more: seq<Event<S, A>>)
    requires InACall(sch, t) && Regs(sch, t).pc == GUARD && Regs(sch, t).level < ROWS
    requires Depth(sch) + (ROWS - Regs(sch, t).level) <= LIMIT
    ensures Ran(sch, t, more) && InACall(more, t)
    ensures Alike(Regs(sch, t).(pc := LEAVE, level := ROWS), Regs(more, t))
    ensures Depth(more) == Depth(sch) + (ROWS - Regs(sch, t).level)
    decreases ROWS - Regs(sch, t).level
  {
    var next := OneSide(sch, t);
    more := next;
    if Regs(sch, t).level + 1 < ROWS {
      hide Legal, Final, InACall, Ran, Depth, Regs;
      more := Climb(next, t);
      RanOn(sch, t, next, more);
    }
  }

  /** One side is let through and counted. */
  lemma {:induction false} OneSide<S, A>(sch: seq<Event<S, A>>, t: nat) returns (more: seq<Event<S, A>>)
    requires InACall(sch, t) && Regs(sch, t).pc == GUARD && Regs(sch, t).level < ROWS && Depth(sch) < LIMIT
    ensures Ran(sch, t, more) && InACall(more, t) && Depth(more) == Depth(sch) + 1
    ensures var r := Regs(sch, t);
            Alike(r.(pc := if r.level + 1 < ROWS then GUARD else LEAVE, level := r.level + 1), Regs(more, t))
  {
    var loaded := Load(sch, t);
    hide Legal, Final, InACall, Ran, Depth, Regs;
    more := RunOne(loaded, t);
    RanOn(sch, t, loaded, more);
  }

  /** It is let through, and the variable loaded to be counted up. */
  lemma {:induction false} Load<S, A>(sch: seq<Event<S, A>>, t: nat) returns (more: seq<Event<S, A>>)
    requires InACall(sch, t) && Regs(sch, t).pc == GUARD && Depth(sch) < LIMIT
    ensures Ran(sch, t, more) && InACall(more, t) && Depth(more) == Depth(sch)
    ensures Regs(more, t) == Regs(sch, t).(pc := ENTER, seen := Depth(sch))
  {
    hide Legal, Final, InACall, Ran, Depth, Regs;
    var passed := RunOne(sch, t);
    more := RunOne(passed, t);
    RanOn(sch, t, passed, more);
  }

  /** From the edge of the map back to the first side, and on to its next opening. */
  lemma {:induction false} Unwind<S, A>(sch: seq<Event<S, A>>, t: nat) returns (more: seq<Event<S, A>>)
    requires InACall(sch, t) && Regs(sch, t).pc == LEAVE && Regs(sch, t).level > 1 && Regs(sch, t).finger + 1 < FINGERS
    ensures Ran(sch, t, more) && InACall(more, t)
    ensures Alike(Regs(sch, t).(pc := GUARD, level := 1, finger := Regs(sch, t).finger + 1), Regs(more, t))
    ensures Depth(more) == Depth(sch) - (Regs(sch, t).level - 1)
    decreases Regs(sch, t).level
  {
    hide Legal, Final, InACall, Ran, Depth, Regs;
    var loaded := RunOne(sch, t);
    var next := RunOne(loaded, t);
    RanOn(sch, t, loaded, next);
    more := next;
    if Regs(next, t).level > 1 {
      more := Unwind(next, t);
      RanOn(sch, t, next, more);
    }
  }

  /** The second thread loads the variable when the first is at the edge of the map,
      and stores when it is back: what the first counted down is lost. */
  lemma {:induction false} LoseDecrements<S, A>(sch: seq<Event<S, A>>, t: nat, t': nat) returns (more: seq<Event<S, A>>)
    requires InACall(sch, t) && InACall(sch, t') && t != t'
    requires Regs(sch, t).pc == GUARD && Regs(sch, t).level < ROWS && Regs(sch, t).finger + 1 < FINGERS
    requires Regs(sch, t').pc == GUARD && Regs(sch, t').level + 1 < ROWS
    requires Depth(sch) + (ROWS - Regs(sch, t).level) < LIMIT
    ensures Went(sch, more) && InACall(more, t) && InACall(more, t')
    ensures Alike(Regs(sch, t).(level := 1, finger := Regs(sch, t).finger + 1), Regs(more, t))
    ensures Alike(Regs(sch, t').(level := Regs(sch, t').level + 1), Regs(more, t'))
    ensures Depth(more) == Depth(sch) + (ROWS - Regs(sch, t).level) + 1
  {
    hide Legal, Final, InACall, Ran, Depth, Regs, Went;
    var edge := Climb(sch, t);
    RanKeeps(sch, t, edge, t');
    var loaded := Load(edge, t');
    RanKeeps(edge, t', loaded, t);
    WentOn(sch, edge, loaded);
    var back := Unwind(loaded, t);
    RanKeeps(loaded, t, back, t');
    WentOn(sch, loaded, back);
    more := RunOne(back, t');
    RanKeeps(back, t', more, t);
    WentOn(sch, back, more);
  }

  /** From where the variable is too high for the rows that are left, a side is
      sent back. */
  lemma {:induction false} Refused<S, A>(sch: seq<Event<S, A>>, t: nat) returns (more: seq<Event<S, A>>)
    requires InACall(sch, t) && Regs(sch, t).pc == GUARD && Good(Regs(sch, t))
    requires Depth(sch) + (ROWS - Regs(sch, t).level) > LIMIT
    ensures Ran(sch, t, more) && InACall(more, t) && Good(Regs(more, t)) && Regs(more, t).cut
    decreases ROWS - Regs(sch, t).level
  {
    var depth := Depth(sch);
    hide Legal, Final, InACall, Ran, Depth, Regs;
    if depth >= LIMIT {
      more := RunOne(sch, t);
    } else {
      var next := OneSide(sch, t);
      more := Refused(next, t);
      RanOn(sch, t, next, more);
    }
  }

  /** A call begins: the record is rewritten and view_from is entered. */
  lemma {:induction false} Begin<S, A>(sch: seq<Event<S, A>>, t: nat) returns (more: seq<Event<S, A>>)
    requires InACall(sch, t) && Regs(sch, t) == FRESH
    ensures Ran(sch, t, more) && InACall(more, t)
    ensures Regs(more, t) == FRESH.(pc := GUARD) && Depth(more) == 0
  {
    hide Legal, Final, InACall, Ran, Depth, Regs;
    var cleared := RunOne(sch, t);
    var saved := RunOne(cleared, t);
    RanOn(sch, t, cleared, saved);
    more := RunOne(saved, t);
    RanOn(sch, t, saved, more);
  }

  /** Two calls that overlap, neither deeper than the map allows: three times the
      second makes the first lose what it counted down, 19 each time, and the first
      is cut short in its fourth opening. */
  lemma {:induction false} Race<S, A>(sch: seq<Event<S, A>>, t: nat, t': nat) returns (more: seq<Event<S, A>>)
    requires InACall(sch, t) && InACall(sch, t') && t != t' && Regs(sch, t) == FRESH && Regs(sch, t') == FRESH
    ensures Went(sch, more) && InACall(more, t) && Good(Regs(more, t)) && Regs(more, t).cut
  {
    hide Legal, Final, InACall, Ran, Depth, Regs, Went;
    var other := Begin(sch, t');
    RanKeeps(sch, t', other, t);
    var begun := Begin(other, t);
    RanKeeps(other, t, begun, t');
    WentOn(sch, other, begun);
    var once := LoseDecrements(begun, t, t');
    WentOn(sch, begun, once);
    var twice := LoseDecrements(once, t, t');
    WentOn(sch, once, twice);
    var thrice := LoseDecrements(twice, t, t');
    WentOn(sch, twice, thrice);
    more := Refused(thrice, t);
    RanKeeps(thrice, t, more, t');
    WentOn(sch, thrice, more);
  }

  // ---- calls that do harm ----

  lemma {:induction false} SecondCall<S, A>(sch: seq<Event<S, A>>, ev: Event<S, A>, t: nat)
    requires Legal(Recursing<S, A>(), sch) && Quiet(Recursing<S, A>(), sch) && t in Calling(sch)
    requires CanDo(Recursing<S, A>(), Final(Recursing<S, A>(), sch), ev) && (ev.NleStart? || ev.NleStep?)
    ensures ev.thread != t && ev.env != Calling(sch)[t]
    ensures t in Final(Recursing<S, A>(), sch).active && Calling(sch)[t] in Final(Recursing<S, A>(), sch).live
    ensures Calling(sch + [ev]) == Calling(sch)[ev.thread := ev.env]
    ensures Project(sch + [ev], Calling(sch)[t]) == Project(sch, Calling(sch)[t])
    ensures var m, m' := Final(Recursing<S, A>(), sch), Do(Recursing<S, A>(), Final(Recursing<S, A>(), sch), ev);
            t in m'.active && ev.thread in m'.active && Calling(sch)[t] in m'.live
  {
    hide Apart, Matches, Quiet, Legal, Final, Fill, Slice;
    var w := ScheduleSimulates(Recursing<S, A>(), sch);
    UsersAreCalling(Recursing<S, A>(), sch);
    ProjectSnoc(sch, ev, Calling(sch)[t]);
    assert Project(sch, Calling(sch)[t]) + [] == Project(sch, Calling(sch)[t]);
  }

  lemma MatchingRegs<S, A, O, R>(g: Game<S, A, O, R>, m: Machine<O, R>, e: nat, l: Local<R>, t: nat)
    requires e in m.live && Matches(g, m, e, l) && t in m.active && m.active[t].env == e
    ensures l.Local? && l.env.regs == m.active[t].regs
  {
    hide HoldsMemory, HoldsOutside;
  }

  /** Overlapping calls. */
  lemma {:induction false} RaceShows<S(!new), A(!new)>(
    sch: seq<Event<S, A>>, ev: Event<S, A>, t: nat) returns (more: seq<Event<S, A>>)
    requires JustCalled(sch) && JustCalled(sch + [ev]) && Quiet(Recursing<S, A>(), sch) && t in Calling(sch)
    requires CanDo(Recursing<S, A>(), Final(Recursing<S, A>(), sch), ev) && (ev.NleStart? || ev.NleStep?)
    ensures View(more) == View(sch + [ev])
    ensures Legal(Recursing<S, A>(), more) && !Isolated(Recursing<S, A>(), more, Calling(sch)[t])
  {
    var g, e := Recursing<S, A>(), Calling(sch)[t];
    SecondCall(sch, ev, t);
    LegalSnoc(g, sch, ev);
    InCallNow(sch + [ev], t);
    InCallNow(sch + [ev], ev.thread);
    more := Race(sch + [ev], t, ev.thread);
    if Isolated(g, more, e) {
      IsolatedNotCut(more, t, e);
    }
  }

  /** An environment that is as it would be alone was not cut short. */
  lemma IsolatedNotCut<S, A>(sch: seq<Event<S, A>>, t: nat, e: nat)
    requires InACall(sch, t) && Calling(sch)[t] == e && e in Final(Recursing<S, A>(), sch).live
    requires Isolated(Recursing<S, A>(), sch, e)
    ensures !Regs(sch, t).cut
  {
    var g, p := Recursing<S, A>(), Project(sch, e);
    AloneUnharmed(p);
    MatchingRegs(g, Final(g, sch), e, RunFrom(g, Unborn, p), t);
  }

  /** At rest, it has its record. */
  lemma IsolatedHasRecord<S, A>(sch: seq<Event<S, A>>, e: nat)
    requires Legal(Recursing<S, A>(), sch) && e in Final(Recursing<S, A>(), sch).live
    requires Isolated(Recursing<S, A>(), sch, e) && !Busy(Final(Recursing<S, A>(), sch), e)
    ensures var m := Final(Recursing<S, A>(), sch); RECORD in Files(m.outside.disk, m.live[e].hackdir)
  {
    var g, p := Recursing<S, A>(), Project(sch, e);
    AloneUnharmed(p);
    DirectoryHeld(g, Final(g, sch), e, RunFrom(g, Unborn, p));
  }

  /** What is left in the directory by a start and its first micro-step. */
  lemma RecordGone<S, A>(m: Machine<bool, Sight>, ev: Event<S, A>)
    requires CanDo(Recursing<S, A>(), m, ev) && ev.NleStart? && m.active == map[] && m.outside.writer != Last(ev.env)
    ensures var m' := Do(Recursing<S, A>(), m, ev);
            && ev.thread in m'.active && ev.thread in m'.tls && CanDo<S, A, bool, Sight>(Recursing<S, A>(), m', Run(ev.thread))
            && RECORD !in Files(DoRun(Recursing<S, A>(), m', ev.thread).outside.disk, ev.at.hackdir)
            && DoRun(Recursing<S, A>(), m', ev.thread).live == m.live[ev.env := ev.at]
            && forall e | e != ev.env :: !Busy(DoRun(Recursing<S, A>(), m', ev.thread), e)
  {
    var g := Recursing<S, A>();
    var l := After(g, Unborn, Start(ev.seed, ev.files));
    FreshCall(m, ev);
    ClearedAlone<S, A>(ev.seed, ev.files);
    assert Proper(g, ev.at) && ev.at.ctx != 0 && ev.thread !in m.active;
    var m' := DoStart(g, m, ev.thread, ev.env, ev.at, ev.seed, ev.files);
    TameStart(g, m', ev.thread);
    hide Matches, DoStart, DoRun, After, Do, CanDo, Proper, Tame, Busy, FRESH, RECORD, Recursing;
    StartMatches(g, m, ev.thread, ev.env, ev.at, ev.seed, ev.files);
    RunMatches(g, m', ev.thread, l);
    DirectoryHeld(g, DoRun(g, m', ev.thread), ev.env, After(g, l, Tick));
  }

  lemma ClearedAlone<S, A>(seed: S, files: Dir)
    ensures var g, l := Recursing<S, A>(), After(Recursing<S, A>(), Unborn, Start(seed, files));
            && l.Local? && l.env.regs == FRESH && g.Next(FRESH) == Unlink(RECORD)
            && Can(g, l, Tick) && After(g, l, Tick).Local? && RECORD !in After(g, l, Tick).env.dir
  {
  }

  lemma TameStart<S, A, O, R>(g: Game<S, A, O, R>, m: Machine<O, R>, t: nat)
    requires CanDo<S, A, O, R>(g, m, Run(t))
    ensures Tame(g, m.mem, m.tls[t], g.Next(m.active[t].regs))
  {
  }

  lemma FreshCall<S, A>(m: Machine<bool, Sight>, ev: Event<S, A>)
    requires CanDo(Recursing<S, A>(), m, ev) && ev.NleStart? && m.active == map[]
    ensures !Busy(m, ev.env)
    ensures var g, t := Recursing<S, A>(), ev.thread;
            var m' := DoStart(g, m, t, ev.env, ev.at, ev.seed, ev.files);
            && m' == Do(g, m, ev) && t in m'.tls && m'.live == m.live[ev.env := ev.at]
            && m'.active == map[t := Activation(ev.env, ev.at.ctx, FRESH)]
            && CanDo<S, A, bool, Sight>(g, m', Run(t)) && DoRun(g, m', t).live == m'.live
            && forall e | e != ev.env :: !Busy(DoRun(g, m', t), e)
  {
    hide Apart, Proper, Fill, Anchor, Block, Perform, Execute;
  }

  lemma DirectoryHeld<S, A, O, R>(g: Game<S, A, O, R>, m: Machine<O, R>, e: nat, l: Local<R>)
    requires e in m.live && Matches(g, m, e, l)
    ensures l.Local? && Files(m.outside.disk, m.live[e].hackdir) == l.env.dir && (l.running <==> Busy(m, e))
  {
  }

  /** A start in the directory of a live environment: it removes that one's record. */
  lemma {:induction false} ShareShows<S(!new), A(!new)>(
    sch: seq<Event<S, A>>, ev: Event<S, A>, e: nat) returns (more: seq<Event<S, A>>)
    requires JustCalled(sch) && JustCalled(sch + [ev]) && Quiet(Recursing<S, A>(), sch) && Calling(sch) == map[]
    requires CanDo(Recursing<S, A>(), Final(Recursing<S, A>(), sch), ev) && ev.NleStart?
    requires e in InUse(sch) && InUse(sch)[e] == ev.at.hackdir
    ensures View(more) == View(sch + [ev])
    ensures Legal(Recursing<S, A>(), more) && !Isolated(Recursing<S, A>(), more, e)
  {
    var g, t, m := Recursing<S, A>(), ev.thread, Final(Recursing<S, A>(), sch);
    UsersAreCalling(g, sch);
    assert m.active == map[] by { NobodyCalled(m); }
    DirectoriesInUse(g, sch);
    WriterIsBorn(g, sch);
    RecordGone(m, ev);
    hide Isolated, Do, DoRun, CanDo, Legal, Final, Busy, JustCalled;
    LegalSnoc(g, sch, ev);
    LegalSnoc(g, sch + [ev], Run(t));
    more := sch + [ev] + [Run(t)];
    ViewSnoc(sch + [ev], Run(t));
    assert View(sch + [ev]) + [] == View(sch + [ev]);
    if Isolated(g, more, e) {
      IsolatedHasRecord(more, e);
    }
  }

  lemma NobodyCalled<O, R>(m: Machine<O, R>)
    requires InCall(m) == map[]
    ensures m.active == map[]
  {
    assert InCall(m).Keys == m.active.Keys;
  }

  lemma WriterIsBorn<S, A, O, R>(g: Game<S, A, O, R>, sch: seq<Event<S, A>>)
    requires Legal(g, sch) && Quiet(g, sch)
    ensures var m := Final(g, sch); m.live.Keys <= m.born && (m.outside.writer.Last? ==> m.outside.writer.env in m.born)
  {
    hide Matches, Legal, Final, Quiet;
    var w := ScheduleSimulates(g, sch);
  }

  /** Whatever the game: if a call is made while another goes on, or a start in a
      directory in use, then with the same calls, up to there, there is a schedule of
      the recursing game in which an environment is not as it would be alone. */
  lemma {:induction false} OffenceBreaks<S(!new), A(!new), O, R>(
    g0: Game<S, A, O, R>, sch0: seq<Event<S, A>>) returns (sch: seq<Event<S, A>>, e: nat)
    requires Legal(g0, sch0) && !(Serial(sch0) && OwnDirectories(sch0))
    ensures View(sch) <= View(sch0)
    ensures Legal(Recursing<S, A>(), sch) && !Isolated(Recursing<S, A>(), sch, e)
    decreases |sch0|
  {
    hide CanDo, Do, ShapeOf, Isolated, Quiet;
    var g, front, ev := Recursing<S, A>(), sch0[..|sch0| - 1], sch0[|sch0| - 1];
    assert sch0 == front + [ev];
    ViewSnoc(front, ev);
    if !(Serial(front) && OwnDirectories(front)) {
      sch, e := OffenceBreaks(g0, front);
    } else {
      var before := Follow(g0, front);
      ViewTells(before);
      ViewTells(front);
      SerialIsExclusive(g, before);
      RecursingResetsFirst<S, A>();
      QuietWhenExclusive(g, before);
      var both := FollowOne(g0, Final(g0, front), before, ev);
      if Calling(front) == map[] {
        e :| e in InUse(front) && InUse(front)[e] == ev.at.hackdir;
        sch := ShareShows(before, ev, e);
      } else {
        var t :| t in Calling(front);
        sch := RaceShows(before, ev, t);
        e := Calling(before)[t];
      }
    }
  }

  lemma {:induction false} FollowOne<S, A, O, R>(
    g0: Game<S, A, O, R>, m0: Machine<O, R>, sch: seq<Event<S, A>>, ev: Event<S, A>) returns (more: seq<Event<S, A>>)
    requires CanDo(g0, m0, ev) && (ev.NleStart? || ev.NleStep?)
    requires JustCalled(sch) && ShapeOf(m0) == ShapeOf(Final(Recursing<S, A>(), sch))
    ensures more == sch + [ev] && JustCalled(more) && View(more) == View(sch) + [ev]
    ensures CanDo(Recursing<S, A>(), Final(Recursing<S, A>(), sch), ev)
  {
    more := CallAlso(g0, m0, sch, ev);
  }

  /** Calls can be made in this order without harm: whatever game stores to the
      variable before it reads it, every environment is as it would be alone. */
  ghost predicate Safe<S(!new), A(!new)>(view: seq<Event<S, A>>) {
    forall g: Game<S, A, bool, Sight>, sch: seq<Event<S, A>> | Legal(g, sch) && View(sch) <= view && ResetsFirst(g) ::
      forall e: nat :: Isolated(g, sch, e)
  }

  /** The calls of a schedule can be made without harm exactly if no two of them
      overlap and nobody starts in a directory in use. */
  lemma SafeExactly<S(!new), A(!new), O, R>(g0: Game<S, A, O, R>, sch0: seq<Event<S, A>>)
    requires Legal(g0, sch0)
    ensures Safe(View(sch0)) <==> Serial(sch0) && OwnDirectories(sch0)
  {
    ViewTells(sch0);
    if Serial(sch0) && OwnDirectories(sch0) {
      forall g: Game<S, A, bool, Sight>, sch: seq<Event<S, A>>, e: nat | Legal(g, sch) && View(sch) <= View(sch0) && ResetsFirst(g)
        ensures Isolated(g, sch, e)
      {
        SerialPrefix(sch, sch0);
        SerialIsExclusive(g, sch);
        IsolatedWhenExclusive(g, sch, e);
      }
    } else {
      var sch, e := OffenceBreaks(g0, sch0);
      RecursingResetsFirst<S, A>();
    }
  }

  lemma SerialPrefix<S, A>(sch: seq<Event<S, A>>, sch0: seq<Event<S, A>>)
    requires View(sch) <= View(sch0) && Serial(sch0) && OwnDirectories(sch0)
    ensures Serial(sch) && OwnDirectories(sch)
  {
    hide View, Serial, OwnDirectories;
    ViewTells(sch);
    ViewTells(sch0);
    assert View(sch) == View(sch0)[..|View(sch)|];
    ViewPrefix(View(sch0), |View(sch)|);
  }

  // ---- what the callers see of it ----

  lemma {:induction false} Started<S, A>(sch: seq<Event<S, A>>, ev: Event<S, A>)
    requires Legal(Recursing<S, A>(), sch) && CanDo(Recursing<S, A>(), Final(Recursing<S, A>(), sch), ev) && ev.NleStart?
    ensures InACall(sch + [ev], ev.thread) && Regs(sch + [ev], ev.thread) == FRESH
    ensures Final(Recursing<S, A>(), sch + [ev]).log == Final(Recursing<S, A>(), sch).log
    ensures forall t | t != ev.thread && InACall(sch, t) :: InACall(sch + [ev], t) && Regs(sch + [ev], t) == Regs(sch, t)
    ensures Calling(sch + [ev]) == Calling(sch)[ev.thread := ev.env]
    ensures Calls(Project(sch + [ev], ev.env)) == Calls(Project(sch, ev.env)) + [Start(ev.seed, ev.files)]
    ensures forall e: nat | e != ev.env :: Project(sch + [ev], e) == Project(sch, e)
  {
    var g, m := Recursing<S, A>(), Final(Recursing<S, A>(), sch);
    StartedMachine(m, ev);
    StartedCalls(sch, ev);
    hide Calls, Project, Do, CanDo;
    LegalSnoc(g, sch, ev);
    InCallNow(sch + [ev], ev.thread);
    forall t | t != ev.thread && InACall(sch, t) ensures InACall(sch + [ev], t) && Regs(sch + [ev], t) == Regs(sch, t) {
      InCallNow(sch + [ev], t);
    }
  }

  lemma StartedMachine<S, A>(m: Machine<bool, Sight>, ev: Event<S, A>)
    requires CanDo(Recursing<S, A>(), m, ev) && ev.NleStart?
    ensures var m' := Do(Recursing<S, A>(), m, ev);
            && m'.log == m.log && ev.thread in m'.active && m'.active[ev.thread].regs == FRESH
            && forall t | t != ev.thread && t in m.active :: t in m'.active && m'.active[t] == m.active[t]
  {
    hide Apart, Proper, Fill, Anchor, Block;
  }

  lemma StartedCalls<S, A>(sch: seq<Event<S, A>>, ev: Event<S, A>)
    requires ev.NleStart?
    ensures Calling(sch + [ev]) == Calling(sch)[ev.thread := ev.env]
    ensures Calls(Project(sch + [ev], ev.env)) == Calls(Project(sch, ev.env)) + [Start(ev.seed, ev.files)]
    ensures forall e: nat | e != ev.env :: Project(sch + [ev], e) == Project(sch, e)
  {
    hide Calls, Project, Calling;
    ProjectSnoc(sch, ev, ev.env);
    CallsSnoc(Project(sch, ev.env), Start(ev.seed, ev.files));
    forall e: nat | e != ev.env ensures Project(sch + [ev], e) == Project(sch, e) {
      ProjectSnoc(sch, ev, e);
      assert Project(sch, e) + [] == Project(sch, e);
    }
  }

  /** The end of a call: what it shows is whether it was cut. */
  lemma {:induction false} Ended<S, A>(sch: seq<Event<S, A>>, t: nat) returns (more: seq<Event<S, A>>)
    requires InACall(sch, t) && NextOp(Regs(sch, t)).Yield?
    ensures Legal(Recursing<S, A>(), more) && more == sch + [Return(t)]
    ensures Final(Recursing<S, A>(), more).log == Final(Recursing<S, A>(), sch).log + [(Calling(sch)[t], Regs(sch, t).cut)]
    ensures forall e: nat :: Calls(Project(more, e)) == Calls(Project(sch, e))
    ensures Calling(more) == Calling(sch) - {t}
  {
    more := sch + [Return(t)];
    EndedMachine<S, A>(Final(Recursing<S, A>(), sch), t);
    EndedCalls(sch, t);
    hide Calls, Project, Do, CanDo;
    LegalSnoc(Recursing<S, A>(), sch, Return(t));
  }

  lemma EndedMachine<S, A>(m: Machine<bool, Sight>, t: nat)
    requires t in m.active && NextOp(m.active[t].regs).Yield?
    ensures CanDo<S, A, bool, Sight>(Recursing<S, A>(), m, Return(t))
    ensures Do<S, A, bool, Sight>(Recursing<S, A>(), m, Return(t)).log == m.log + [(m.active[t].env, m.active[t].regs.cut)]
  {
  }

  lemma EndedCalls<S, A>(sch: seq<Event<S, A>>, t: nat)
    ensures forall e: nat :: Calls(Project(sch + [Return(t)], e)) == Calls(Project(sch, e))
    ensures Calling(sch + [Return(t)]) == Calling(sch) - {t}
  {
    hide Calls, Project, Calling;
    forall e: nat ensures Calls(Project(sch + [Return(t)], e)) == Calls(Project(sch, e)) {
      ProjectSnoc(sch, Return(t), e);
      CallsSnoc(Project(sch, e), Leave);
      assert Project(sch, e) + [] == Project(sch, e);
    }
    ProjectSnoc(sch, Return(t), 0);
  }

  const FIRST: Event<(), ()> := NleStart(1, 1, Layout(100, 0, 1), (), map[])
  const SECOND: Event<(), ()> := NleStart(2, 2, Layout(200, 0, 2), (), map[])

  const STARTED: seq<Event<(), ()>> := [FIRST, SECOND]
  const RACED: seq<Event<(), ()>> := STARTED + [Return(1)]

  lemma {:induction false} FirstCall() returns (sch: seq<Event<(), ()>>)
    ensures sch == [FIRST] && Legal(Recursing<(), ()>(), sch) && Final(Recursing<(), ()>(), sch).log == []
    ensures InACall(sch, 1) && Regs(sch, 1) == FRESH
    ensures Calling(sch) == map[1 := 1] && Calls(Project(sch, 1)) == [Start((), map[])]
    ensures CanDo(Recursing<(), ()>(), Final(Recursing<(), ()>(), sch), SECOND)
  {
    assert Legal(Recursing<(), ()>(), []) && Final(Recursing<(), ()>(), []) == Boot();
    assert Calling<(), ()>([]) == map[] && Calls(Project<(), ()>([], 1)) == [];
    hide Legal, Final, View, Calling, Project, Calls, InCall, CanDo, Do, InACall, Regs;
    TwoCanStart();
    Started([], FIRST);
    LegalSnoc(Recursing<(), ()>(), [], FIRST);
    assert [] + [FIRST] == [FIRST];
    sch := [FIRST];
  }

  lemma TwoCanStart()
    ensures CanDo(Recursing<(), ()>(), Boot(), FIRST)
    ensures CanDo(Recursing<(), ()>(), Do(Recursing<(), ()>(), Boot(), FIRST), SECOND)
  {
    hide Fill, Slice, Block;
    var g := Recursing<(), ()>();
    assert Proper(g, FIRST.at) && Proper(g, SECOND.at) && Apart(g, SECOND.at, FIRST.at);
    var m: Machine<bool, Sight> := Do(g, Boot(), FIRST);
    assert m.live == map[1 := FIRST.at] && m.born == {1} && m.active.Keys == {1};
  }

  lemma {:induction false} AloneWhole() returns (sch: seq<Event<(), ()>>)
    ensures Legal(Recursing<(), ()>(), sch) && Calling(sch) == map[]
    ensures Calls(Project(sch, 1)) == [Start((), map[])]
    ensures ShownBy(Final(Recursing<(), ()>(), sch).log, 1) == [false]
  {
    var start := FirstCall();
    hide Legal, Final, View, Calling, Project, Calls, InCall, InACall, Ran, Regs, Isolated, Recursing;
    var done := Finish(start, 1);
    FirstAlone(start, done);
    sch := Ended(done, 1);
    OneShown(Final(Recursing<(), ()>(), sch).log, (1, false));
  }

  /** With nobody else about the first call is not cut short. */
  lemma FirstAlone(start: seq<Event<(), ()>>, sch: seq<Event<(), ()>>)
    requires start == [FIRST] && InACall(start, 1) && (sch == start || Ran(start, 1, sch)) && InACall(sch, 1)
    requires Calling(start) == map[1 := 1]
    ensures !Regs(sch, 1).cut && Calling(sch) == map[1 := 1] && Calls(Project(sch, 1)) == Calls(Project(start, 1))
    ensures Final(Recursing<(), ()>(), sch).log == Final(Recursing<(), ()>(), start).log
  {
    var g := Recursing<(), ()>();
    ViewTells(start);
    ViewTells(sch);
    assert Serial(start) && OwnDirectories(start) by { OneStart(); }
    SerialIsExclusive(g, sch);
    RecursingResetsFirst<(), ()>();
    IsolatedWhenExclusive(g, sch, 1);
    QuietWhenExclusive(g, sch);
    CalledIsLive(g, sch, 1);
    IsolatedNotCut(sch, 1, 1);
  }

  lemma OneStart()
    ensures Serial([FIRST]) && OwnDirectories([FIRST])
  {
    assert [FIRST][..0] == [];
  }

  lemma CalledIsLive<S, A, O, R>(g: Game<S, A, O, R>, sch: seq<Event<S, A>>, t: nat)
    requires Legal(g, sch) && Quiet(g, sch) && t in Calling(sch)
    ensures Calling(sch)[t] in Final(g, sch).live
  {
    hide Matches, Legal, Final, Quiet, Calling;
    var w := ScheduleSimulates(g, sch);
    UsersAreCalling(g, sch);
  }

  lemma {:induction false} BothCalled() returns (sch: seq<Event<(), ()>>)
    ensures InACall(sch, 1) && InACall(sch, 2) && Regs(sch, 1) == FRESH && Regs(sch, 2) == FRESH
    ensures Calling(sch).Keys == {1, 2} && forall t | t in Calling(sch) :: Calling(sch)[t] == t
    ensures View(sch) == STARTED
    ensures Calls(Project(sch, 1)) == [Start((), map[])] && Final(Recursing<(), ()>(), sch).log == []
  {
    var start := FirstCall();
    hide Legal, Final, View, Calling, Project, Calls, InCall, CanDo, InACall, Regs;
    Started(start, SECOND);
    sch := start + [SECOND];
    ViewSnoc(start, SECOND);
    FirstView(start);
  }

  lemma {:induction false} RacedCut() returns (sch: seq<Event<(), ()>>)
    ensures Legal(Recursing<(), ()>(), sch) && Calling(sch).Keys == {2} && Calling(sch)[2] == 2 && View(sch) == RACED
    ensures Calls(Project(sch, 1)) == [Start((), map[])]
    ensures ShownBy(Final(Recursing<(), ()>(), sch).log, 1) == [true]
  {
    hide Legal, Final, View, Calling, Project, Calls, InCall, CanDo, InACall, Regs, Ran, ShownBy, Went, Good;
    var both := BothCalled();
    var raced := Race(both, 1, 2);
    var done := Finish(raced, 1);
    FinishedLike(raced, 1, done);
    WentOn(both, raced, done);
    WentTells(both, done, 1);
    sch := Ended(done, 1);
    ViewSnoc(done, Return(1));
    OneShown(Final(Recursing<(), ()>(), sch).log, (1, true));
  }

  lemma FinishedLike<S, A>(sch: seq<Event<S, A>>, t: nat, more: seq<Event<S, A>>)
    requires InACall(sch, t) && (sch == more || Ran(sch, t, more))
    ensures Went(sch, more)
  {
    hide Legal, View, Project, Calls;
  }

  lemma FirstView(sch: seq<Event<(), ()>>)
    requires sch == [FIRST]
    ensures View(sch) == [FIRST]
  {
    assert sch[..0] == [];
  }

  lemma OneShown(log: seq<(nat, bool)>, x: (nat, bool))
    requires log == [x]
    ensures ShownBy(log, x.0) == [x.1]
  {
    assert log[..0] == [];
  }

  lemma TwoDirectories()
    ensures OwnDirectories(RACED)
  {
    var v := RACED;
    assert v[..2] == [FIRST, SECOND];
    assert [FIRST, SECOND][..1] == [FIRST] && [FIRST][..0] == [];
    assert OwnDirectories([FIRST]) && InUse([FIRST]) == map[1 := 1];
    assert OwnDirectories([FIRST, SECOND]);
  }

  /** Two threads, two environments in two directories, one call on each: what the
      first shows is not what the same call shows with nobody else about. So
      `CallsDecideObservations` needs its condition. */
  lemma {:induction false} GuardIsShared() returns (sch: seq<Event<(), ()>>, alone: seq<Event<(), ()>>)
    ensures Legal(Recursing<(), ()>(), sch) && Legal(Recursing<(), ()>(), alone)
    ensures View(sch) == RACED && OwnDirectories(sch)
    ensures 1 !in Calling(sch).Values && 1 !in Calling(alone).Values
    ensures Calls(Project(sch, 1)) == Calls(Project(alone, 1))
    ensures ShownBy(Final(Recursing<(), ()>(), sch).log, 1) == [true]
    ensures ShownBy(Final(Recursing<(), ()>(), alone).log, 1) == [false]
  {
    hide *;
    sch := RacedCut();
    alone := AloneWhole();
    ViewTells(sch);
    TwoDirectories();
  }
}
