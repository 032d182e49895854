// Two environments in one directory are not apart, even if their calls never
// overlap: each plays on with the files the other wrote.

module Hackdirs {
  import opened LevelFiles
  import opened Environment
  import opened Isolation

  datatype Page = Page(pc: nat, seen: int)

  function Following(seen: int): seq<Byte> { [(seen + 1) % 256] }

  /** On every call this game reads its record, writes the number that follows, and
      shows what it read. */
  const DIARY: Game<(), (), int, Page> := Game(
    [], 0,
    (globals: seq<int>) => [],
    (s: ()) => Page(0, 0),
    (r: Page, a: ()) => Page(0, 0),
    (r: Page) => if r.pc == 0 then Op<int>.ReadFile(RECORD, 0)
                 else if r.pc == 1 then WriteFile(RECORD, Following(r.seen))
                 else Yield(r.seen),
    (r: Page, v: int) => Page(r.pc + 1, if r.pc == 0 then v else r.seen))

  /** Thread 1 has just made a call on environment `e`, in directory `h`. */
  ghost predicate Reading(m: Machine<int, Page>, e: nat, h: nat) {
    && m.active.Keys == {1} && 1 in m.tls && m.active[1].env == e && m.active[1].regs.pc == 0
    && m.active[1].nle == m.tls[1].currentNleCtx
    && Peek(m.mem, m.tls[1].currentNleCtx + HACKDIR) == h
  }

  function Done(m: Machine<int, Page>, h: nat): Machine<int, Page>
    requires 1 in m.active
  {
    var seen := FileByte(Files(m.outside.disk, h), RECORD, 0);
    m.(outside := m.outside.(disk := m.outside.disk[h := Files(m.outside.disk, h)[RECORD := Following(seen)]]),
       active := m.active - {1}, parked := m.parked[m.active[1].nle := Page(2, seen)], log := m.log + [(m.active[1].env, seen)])
  }

  function OneCall(): seq<Event<(), ()>> { [Run(1), Run(1), Return(1)] }

  /** The three events on the machine. */
  lemma CallSteps(m: Machine<int, Page>, e: nat, h: nat)
    requires Reading(m, e, h)
    ensures CanDo<(), (), int, Page>(DIARY, m, Run(1))
    ensures var m1 := DoRun(DIARY, m, 1);
            CanDo<(), (), int, Page>(DIARY, m1, Run(1))
            && var m2 := DoRun(DIARY, m1, 1);
               CanDo<(), (), int, Page>(DIARY, m2, Return(1)) && DoReturn(DIARY, m2, 1) == Done(m, h)
  {
    ReadStep(m, e, h);
    var seen := FileByte(Files(m.outside.disk, h), RECORD, 0);
    var m1 := m.(active := m.active[1 := m.active[1].(regs := Page(1, seen))]);
    WriteStep(m1, h);
    var m2 := DoRun(DIARY, m1, 1);
    hide DoRun, Following, FileByte, Peek;
    assert m2.active - {1} == m.active - {1};
  }

  lemma ReadStep(m: Machine<int, Page>, e: nat, h: nat)
    requires Reading(m, e, h)
    ensures CanDo<(), (), int, Page>(DIARY, m, Run(1))
    ensures DoRun(DIARY, m, 1)
         == m.(active := m.active[1 := m.active[1].(regs := Page(1, FileByte(Files(m.outside.disk, h), RECORD, 0)))])
  {
    hide FileByte, Following;
  }

  lemma WriteStep(m: Machine<int, Page>, h: nat)
    requires 1 in m.active && 1 in m.tls && m.active[1].regs.pc == 1
    requires Peek(m.mem, m.tls[1].currentNleCtx + HACKDIR) == h
    ensures CanDo<(), (), int, Page>(DIARY, m, Run(1))
    ensures DoRun(DIARY, m, 1)
         == m.(active := m.active[1 := m.active[1].(regs := Page(2, m.active[1].regs.seen))],
               outside := m.outside.(disk := m.outside.disk[h := Files(m.outside.disk, h)[RECORD := Following(m.active[1].regs.seen)]]))
  {
    hide FileByte, Following;
  }

  lemma Call(sch: seq<Event<(), ()>>, e: nat, h: nat)
    requires Legal(DIARY, sch) && Reading(Final(DIARY, sch), e, h)
    ensures Legal(DIARY, sch + OneCall()) && Final(DIARY, sch + OneCall()) == Done(Final(DIARY, sch), h)
  {
    hide Legal, Final, CanDo, DoRun, DoReturn, Reading, Done;
    CallSteps(Final(DIARY, sch), e, h);
    LegalSnoc(DIARY, sch, Run(1));
    LegalSnoc(DIARY, sch + [Run(1)], Run(1));
    LegalSnoc(DIARY, sch + [Run(1)] + [Run(1)], Return(1));
    assert sch + OneCall() == sch + [Run(1)] + [Run(1)] + [Return(1)];
  }

  // ---- one thread, two environments, one directory ----

  function StartOf(e: nat, files: Dir): Event<(), ()> { NleStart(1, e, Layout(100 * e + 1, 0, 7), (), files) }

  const AGAIN: Event<(), ()> := NleStep(1, 1, ())

  /** Nobody is in a call, and `n` environments are live, all in directory 7. */
  ghost predicate Resting(m: Machine<int, Page>, n: nat) {
    && m.active == map[] && (forall o | o in m.born :: o <= n)
    && forall o | o in m.live :: o <= n && m.live[o] == StartOf(o, map[]).at && Peek(m.mem, m.live[o].ctx + HACKDIR) == 7
                                && m.live[o].ctx in m.parked
  }

  lemma CanStart(m: Machine<int, Page>, e: nat, files: Dir)
    requires e > 0 && Resting(m, e - 1)
    ensures CanDo(DIARY, m, StartOf(e, files))
  {
    var ev := StartOf(e, files);
    assert Proper(DIARY, ev.at);
    forall o | o in m.live ensures Apart(DIARY, ev.at, m.live[o]) {
    }
  }

  ghost predicate Begun(m: Machine<int, Page>, m': Machine<int, Page>, e: nat) {
    var at := StartOf(e, map[]).at;
    && Reading(m', e, 7) && m'.log == m.log && m'.live == m.live[e := at] && m'.born == m.born + {e}
    && m'.parked == m.parked && m'.active[1].nle == at.ctx && m'.active.Keys == {1}
    && Peek(m'.mem, at.ctx + HACKDIR) == 7
    && forall o | o in m.live :: Peek(m'.mem, m.live[o].ctx + HACKDIR) == Peek(m.mem, m.live[o].ctx + HACKDIR)
  }

  lemma StartMachine(m: Machine<int, Page>, e: nat, files: Dir)
    requires e > 0 && Resting(m, e - 1) && CanDo(DIARY, m, StartOf(e, files))
    ensures var m' := Do(DIARY, m, StartOf(e, files));
            Begun(m, m', e) && Files(m'.outside.disk, 7) == files && Resting(Done(m', 7), e)
  {
    var m' := Do(DIARY, m, StartOf(e, files));
    StartMemory(m, e, files);
    StartFields(m, e, files);
    hide Do, CanDo, Done, Peek, Begun, Resting, Files;
    BegunSo(m, m', e);
    RestingAgain(m, m', e);
  }

  lemma BegunSo(m: Machine<int, Page>, m': Machine<int, Page>, e: nat)
    requires var at := StartOf(e, map[]).at;
             && m'.active == map[1 := Activation(e, at.ctx, Page(0, 0))] && 1 in m'.tls && m'.tls[1].currentNleCtx == at.ctx
             && m'.log == m.log && m'.live == m.live[e := at] && m'.born == m.born + {e} && m'.parked == m.parked
             && Peek(m'.mem, at.ctx + HACKDIR) == 7
    requires forall o | o in m.live :: Peek(m'.mem, m.live[o].ctx + HACKDIR) == Peek(m.mem, m.live[o].ctx + HACKDIR)
    ensures Begun(m, m', e)
  {
    hide Peek;
  }

  /** What a start writes: its own block, and in it the directory. */
  lemma StartMemory(m: Machine<int, Page>, e: nat, files: Dir)
    requires e > 0 && Resting(m, e - 1) && CanDo(DIARY, m, StartOf(e, files))
    ensures var m' := Do(DIARY, m, StartOf(e, files));
            && Peek(m'.mem, StartOf(e, files).at.ctx + HACKDIR) == 7
            && forall o | o in m.live :: Peek(m'.mem, m.live[o].ctx + HACKDIR) == Peek(m.mem, m.live[o].ctx + HACKDIR)
  {
    hide Anchor;
    assert Block(DIARY, StartOf(e, files).at)[HACKDIR] == 7;
  }

  lemma StartFields(m: Machine<int, Page>, e: nat, files: Dir)
    requires m.active == map[] && CanDo(DIARY, m, StartOf(e, files))
    ensures var at, m' := StartOf(e, map[]).at, Do(DIARY, m, StartOf(e, files));
            && m'.active == map[1 := Activation(e, at.ctx, Page(0, 0))] && 1 in m'.tls && m'.tls[1].currentNleCtx == at.ctx
            && m'.log == m.log && m'.live == m.live[e := at] && m'.born == m.born + {e} && m'.parked == m.parked
            && Files(m'.outside.disk, 7) == files
  {
    hide Fill, Block, Peek, Apart, Proper;
  }

  lemma RestingAgain(m: Machine<int, Page>, m': Machine<int, Page>, e: nat)
    requires e > 0 && Resting(m, e - 1) && Begun(m, m', e)
    ensures Resting(Done(m', 7), e)
  {
    hide Following, FileByte;
  }

  lemma StepMachine(m: Machine<int, Page>, n: nat)
    requires Resting(m, n) && 1 in m.live
    ensures CanDo(DIARY, m, AGAIN)
    ensures var m' := Do(DIARY, m, AGAIN);
            Reading(m', 1, 7) && m'.outside == m.outside && m'.log == m.log
  {
  }

  /** The directory and the log after a call by `e` that finds `files`. */
  ghost predicate Wrote(sch: seq<Event<(), ()>>, more: seq<Event<(), ()>>, e: nat, files: Dir) {
    && Legal(DIARY, sch) && Legal(DIARY, more)
    && var m, m' := Final(DIARY, sch), Final(DIARY, more);
       var seen := FileByte(files, RECORD, 0);
       && m'.log == m.log + [(e, seen)]
       && Files(m'.outside.disk, 7) == files[RECORD := Following(seen)]
  }

  lemma {:induction false} StartAndCall(sch: seq<Event<(), ()>>, e: nat, files: Dir) returns (more: seq<Event<(), ()>>)
    requires e > 0 && Legal(DIARY, sch) && Resting(Final(DIARY, sch), e - 1)
    ensures more == sch + [StartOf(e, files)] + OneCall() && Wrote(sch, more, e, files) && Resting(Final(DIARY, more), e)
    ensures Final(DIARY, more).live == Final(DIARY, sch).live[e := StartOf(e, files).at]
  {
    var m := Final(DIARY, sch);
    hide Legal, Final, Do, CanDo, Resting, FileByte, Following;
    CanStart(m, e, files);
    StartMachine(m, e, files);
    LegalSnoc(DIARY, sch, StartOf(e, files));
    Call(sch + [StartOf(e, files)], e, 7);
    more := sch + [StartOf(e, files)] + OneCall();
  }

  lemma {:induction false} StepAndCall(sch: seq<Event<(), ()>>, n: nat) returns (more: seq<Event<(), ()>>)
    requires Legal(DIARY, sch) && Resting(Final(DIARY, sch), n) && 1 in Final(DIARY, sch).live
    ensures more == sch + [AGAIN] + OneCall() && Wrote(sch, more, 1, Files(Final(DIARY, sch).outside.disk, 7))
  {
    var m := Final(DIARY, sch);
    hide Legal, Final, Do, CanDo, Resting, FileByte, Following;
    StepMachine(m, n);
    LegalSnoc(DIARY, sch, AGAIN);
    Call(sch + [AGAIN], 1, 7);
    more := sch + [AGAIN] + OneCall();
  }

  const FOUND: Dir := map[RECORD := Following(-1)] // what a first call leaves

  lemma FirstEntries()
    ensures FileByte(map[], RECORD, 0) == -1 && FileByte(FOUND, RECORD, 0) == 0
    ensures FileByte(FOUND[RECORD := Following(0)], RECORD, 0) == 1
  {
  }

  lemma {:induction false} FirstCall() returns (sch: seq<Event<(), ()>>)
    ensures sch == [StartOf(1, map[])] + OneCall() && Legal(DIARY, sch) && Resting(Final(DIARY, sch), 1)
    ensures 1 in Final(DIARY, sch).live && Final(DIARY, sch).log == [(1, -1)]
    ensures Files(Final(DIARY, sch).outside.disk, 7) == FOUND
  {
    FirstEntries();
    assert Legal(DIARY, []) && Resting(Final(DIARY, []), 0) && Final(DIARY, []).log == [];
    hide Legal, Final, Resting, FileByte, Following;
    sch := StartAndCall([], 1, map[]);
    assert [] + [StartOf(1, map[])] == [StartOf(1, map[])];
  }

  /** One thread, calls made one at a time, two environments in one directory: the
      first starts and finds nothing, the second starts on what the first left, and
      the first, stepped again, shows what the second wrote. With nobody else about
      the same two calls show what it wrote itself. */
  lemma {:induction false} DirectoryIsShared() returns (sch: seq<Event<(), ()>>, alone: seq<Event<(), ()>>)
    ensures sch == [StartOf(1, map[])] + OneCall() + [StartOf(2, FOUND)] + OneCall() + [AGAIN] + OneCall()
    ensures alone == [StartOf(1, map[])] + OneCall() + [AGAIN] + OneCall()
    ensures Legal(DIARY, sch) && Final(DIARY, sch).log == [(1, -1), (2, 0), (1, 1)]
    ensures Legal(DIARY, alone) && Final(DIARY, alone).log == [(1, -1), (1, 0)]
  {
    hide Legal, Final, Resting, FileByte, Following, FOUND, DIARY, RECORD, StartOf, AGAIN, OneCall;
    FirstEntries();
    var first := FirstCall();
    alone := StepAndCall(first, 1);
    var second := StartAndCall(first, 2, FOUND);
    sch := StepAndCall(second, 2);
  }
}
