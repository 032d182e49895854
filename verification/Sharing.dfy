// What environments share all the same, and when that keeps them apart: the
// recursion guard of the vision code, one variable for every thread, and a
// writable directory given to two of them.

module Sharing {
  import opened Environment
  import opened Isolation

  // ---- what a caller sees of a schedule ----

  /** Everything but the micro-steps. */
  function View<S, A>(sch: seq<Event<S, A>>): seq<Event<S, A>> {
    if sch == [] then []
    else View(sch[..|sch| - 1]) + if sch[|sch| - 1].Run? then [] else [sch[|sch| - 1]]
  }

  /** No call is made while another is going on. */
  predicate Serial<S, A>(sch: seq<Event<S, A>>) {
    sch == []
    || (var front, ev := sch[..|sch| - 1], sch[|sch| - 1];
        Serial(front) && (ev.NleStart? || ev.NleStep? ==> Calling(front) == map[]))
  }

  /** The directories of the environments started and not ended. */
  function InUse<S, A>(sch: seq<Event<S, A>>): map<nat, nat> {
    if sch == [] then map[]
    else
      var before := InUse(sch[..|sch| - 1]);
      match sch[|sch| - 1]
      case NleStart(_, e, at, _, _) => before[e := at.hackdir]
      case NleEnd(_, e) => before - {e}
      case _ => before
  }

  /** Nobody starts in a directory that is in use. */
  predicate OwnDirectories<S, A>(sch: seq<Event<S, A>>) {
    sch == []
    || (var front, ev := sch[..|sch| - 1], sch[|sch| - 1];
        OwnDirectories(front) && (ev.NleStart? ==> ev.at.hackdir !in InUse(front).Values))
  }

  /** These are matters of the calls alone. */
  lemma {:induction false} ViewTells<S, A>(sch: seq<Event<S, A>>)
    ensures Calling(View(sch)) == Calling(sch) && InUse(View(sch)) == InUse(sch)
    ensures Serial(View(sch)) <==> Serial(sch)
    ensures OwnDirectories(View(sch)) <==> OwnDirectories(sch)
    decreases |sch|
  {
    if sch != [] {
      var front, ev := sch[..|sch| - 1], sch[|sch| - 1];
      ViewTells(front);
      if !ev.Run? {
        assert View(sch)[..|View(sch)| - 1] == View(front);
      } else {
        assert View(sch) == View(front);
      }
    }
  }

  lemma {:induction false} ViewPrefix<S, A>(sch: seq<Event<S, A>>, k: nat)
    requires k <= |sch|
    ensures Serial(sch) ==> Serial(sch[..k])
    ensures OwnDirectories(sch) ==> OwnDirectories(sch[..k])
    decreases |sch|
  {
    if k < |sch| {
      ViewPrefix(sch[..|sch| - 1], k);
      assert sch[..|sch| - 1][..k] == sch[..k];
    } else {
      assert sch[..k] == sch;
    }
  }

  /** The conclusion of `EnvironmentsIsolated`, for one environment. */
  ghost predicate Isolated<S, A, O, R>(g: Game<S, A, O, R>, sch: seq<Event<S, A>>, e: nat)
    requires Legal(g, sch)
  {
    var p := Project(sch, e);
    && LegalFrom(g, Unborn, p)
    && ShownBy(Final(g, sch).log, e) == Observed(g, Unborn, p)
    && (e in Final(g, sch).live ==> Matches(g, Final(g, sch), e, RunFrom(g, Unborn, p)))
  }

  // ---- which games and which runs do no harm ----

  predicate OnDepth<O>(op: Op<O>) { op.LoadDepth? || op.StoreDepth? }

  /** Whether the call going on at the end of a run has stored to the variable. */
  function HasReset<S, A, O, R>(g: Game<S, A, O, R>, l: Local<R>, evs: seq<LEvent<S, A>>): bool
    requires LegalFrom(g, l, evs)
  {
    if evs == [] then false
    else
      var front := evs[..|evs| - 1];
      match evs[|evs| - 1]
      case Start(_, _) => false
      case Enter(_) => false
      case Tick => HasReset(g, l, front) || g.Next(RunFrom(g, l, front).env.regs).StoreDepth?
      case _ => HasReset(g, l, front)
  }

  /** Alone, the game reads the variable only in calls that have stored to it, as
      view_from does before every recursion. */
  ghost predicate ResetsFirst<S(!new), A(!new), O, R>(g: Game<S, A, O, R>) {
    forall evs | LegalFrom(g, Unborn, evs) && Can(g, RunFrom(g, Unborn, evs), Tick) ::
      g.Next(RunFrom(g, Unborn, evs).env.regs).LoadDepth? ==> HasReset(g, Unborn, evs)
  }

  /** The threads in a call that has used the variable. */
  ghost function Users<S, A, O, R>(g: Game<S, A, O, R>, sch: seq<Event<S, A>>): set<nat>
    requires Legal(g, sch)
  {
    if sch == [] then {}
    else
      var front := sch[..|sch| - 1];
      match sch[|sch| - 1]
      case NleStart(t, _, _, _, _) => Users(g, front) - {t}
      case NleStep(t, _, _) => Users(g, front) - {t}
      case Run(t) =>
        if OnDepth(g.Next(Final(g, front).active[t].regs)) then Users(g, front) + {t} else Users(g, front)
      case Return(t) => Users(g, front) - {t}
      case _ => Users(g, front)
  }

  /** Of the calls that use the variable no two overlap. */
  ghost predicate Exclusive<S, A, O, R>(g: Game<S, A, O, R>, sch: seq<Event<S, A>>)
    requires Legal(g, sch)
  {
    sch == []
    || (var front, ev := sch[..|sch| - 1], sch[|sch| - 1];
        && Exclusive(g, front)
        && (ev.Run? && OnDepth(g.Next(Final(g, front).active[ev.thread].regs)) ==> Users(g, front) <= {ev.thread}))
  }

  lemma {:induction false} UsersAreCalling<S, A, O, R>(g: Game<S, A, O, R>, sch: seq<Event<S, A>>)
    requires Legal(g, sch)
    ensures Calling(sch) == InCall(Final(g, sch)) && Users(g, sch) <= Calling(sch).Keys
    decreases |sch|
  {
    hide CanDo, Do;
    if sch != [] {
      UsersAreCalling(g, sch[..|sch| - 1]);
      ActiveKept(g, Final(g, sch[..|sch| - 1]), sch[|sch| - 1]);
      RunIsActive(g, Final(g, sch[..|sch| - 1]), sch[|sch| - 1]);
    }
  }

  lemma RunIsActive<S, A, O, R>(g: Game<S, A, O, R>, m: Machine<O, R>, ev: Event<S, A>)
    requires CanDo(g, m, ev)
    ensures ev.Run? ==> ev.thread in m.active && ev.thread in InCall(m)
  {
  }

  lemma {:induction false} SerialCalling<S, A>(sch: seq<Event<S, A>>)
    requires Serial(sch)
    ensures forall t, t' | t in Calling(sch) && t' in Calling(sch) :: t == t'
    decreases |sch|
  {
    if sch != [] {
      SerialCalling(sch[..|sch| - 1]);
    }
  }

  /** Calls made one at a time are, for every game, calls of which no two that use
      the variable overlap. */
  lemma {:induction false} SerialIsExclusive<S, A, O, R>(g: Game<S, A, O, R>, sch: seq<Event<S, A>>)
    requires Legal(g, sch) && Serial(sch)
    ensures Exclusive(g, sch)
    decreases |sch|
  {
    hide CanDo, Do;
    if sch != [] {
      var front, ev := sch[..|sch| - 1], sch[|sch| - 1];
      SerialIsExclusive(g, front);
      SerialCalling(front);
      UsersAreCalling(g, front);
      RunIsActive(g, Final(g, front), ev);
    }
  }

  /** And so are, in any schedule, the calls of a game that does not use it. */
  lemma {:induction false} UnusedIsExclusive<S, A, O, R(!new)>(g: Game<S, A, O, R>, sch: seq<Event<S, A>>)
    requires Legal(g, sch) && forall r :: !g.Next(r).LoadDepth? && !g.Next(r).StoreDepth?
    ensures Exclusive(g, sch) && Users(g, sch) == {}
    decreases |sch|
  {
    hide CanDo, Do;
    if sch != [] {
      UnusedIsExclusive(g, sch[..|sch| - 1]);
      RunIsActive(g, Final(g, sch[..|sch| - 1]), sch[|sch| - 1]);
    }
  }

  lemma {:induction false} DirectoriesInUse<S, A, O, R>(g: Game<S, A, O, R>, sch: seq<Event<S, A>>)
    requires Legal(g, sch)
    ensures Final(g, sch).live.Keys <= Final(g, sch).born
    ensures InUse(sch) == map e | e in Final(g, sch).live :: Final(g, sch).live[e].hackdir
    decreases |sch|
  {
    hide CanDo, Do;
    if sch != [] {
      DirectoriesInUse(g, sch[..|sch| - 1]);
      ShapeKept(g, Final(g, sch[..|sch| - 1]), sch[|sch| - 1]);
    }
  }

  // ---- isolation of such games in such schedules ----

  /** A call that has stored to the variable is a user of it, and the last one to
      have stored to it. */
  ghost predicate LastUser<S, A, O, R>(g: Game<S, A, O, R>, sch: seq<Event<S, A>>, t: nat)
    requires Legal(g, sch) && t in Calling(sch)
  {
    var e := Calling(sch)[t];
    LegalFrom(g, Unborn, Project(sch, e)) && HasReset(g, Unborn, Project(sch, e)) ==>
      t in Users(g, sch) && Final(g, sch).outside.writer == Last(e)
  }

  /** Where the games are all alone, the machine's next micro-step is theirs. */
  lemma NextOp<S, A, O, R>(g: Game<S, A, O, R>, sch: seq<Event<S, A>>, t: nat)
    requires Legal(g, sch) && Quiet(g, sch) && CanDo<S, A, O, R>(g, Final(g, sch), Run(t))
    ensures t in Calling(sch)
    ensures var p := Project(sch, Calling(sch)[t]);
            && LegalFrom(g, Unborn, p) && RunFrom(g, Unborn, p).Local? && RunFrom(g, Unborn, p).running
            && RunFrom(g, Unborn, p).env.regs == Final(g, sch).active[t].regs
  {
    hide Apart, Do, Tame, LegalFrom, RunFrom, HoldsMemory, Project, Legal, Final, Quiet, HoldsOutside, Proper;
    var w := ScheduleSimulates(g, sch);
    UsersAreCalling(g, sch);
    EnvironmentsIsolated(g, sch, Calling(sch)[t]);
    var m := Final(g, sch);
    assert Busy(m, m.active[t].env);
  }

  lemma ResetSnoc<S, A, O, R>(g: Game<S, A, O, R>, p: seq<LEvent<S, A>>, ev: LEvent<S, A>)
    requires LegalFrom(g, Unborn, p + [ev])
    ensures LegalFrom(g, Unborn, p)
    ensures HasReset(g, Unborn, p + [ev]) <==>
              && !ev.Start? && !ev.Enter?
              && (HasReset(g, Unborn, p) || (ev.Tick? && g.Next(RunFrom(g, Unborn, p).env.regs).StoreDepth?))
  {
    assert (p + [ev])[..|p|] == p;
  }

  /** What a micro-step does to the variable and its users. */
  ghost predicate Used<S, A, O, R>(g: Game<S, A, O, R>, sch: seq<Event<S, A>>, t: nat, after: seq<Event<S, A>>)
    requires Legal(g, sch) && Legal(g, after)
  {
    && t in Final(g, sch).active
    && var m, m' := Final(g, sch), Final(g, after);
       var op := g.Next(m.active[t].regs);
       && (if OnDepth(op) then Users(g, after) == Users(g, sch) + {t} else Users(g, after) == Users(g, sch))
       && (if op.StoreDepth? then m'.outside.writer == Last(m.active[t].env) else m'.outside.writer == m.outside.writer)
       && (Exclusive(g, after) && OnDepth(op) ==> Users(g, sch) <= {t})
  }

  /** What an event does to the variable and its users. */
  lemma UsersSnoc<S, A, O, R>(g: Game<S, A, O, R>, sch: seq<Event<S, A>>, ev: Event<S, A>)
    requires Legal(g, sch) && CanDo(g, Final(g, sch), ev)
    ensures Legal(g, sch + [ev]) && Final(g, sch + [ev]) == Do(g, Final(g, sch), ev)
    ensures Exclusive(g, sch + [ev]) ==> Exclusive(g, sch)
    ensures Quiet(g, sch) && Undisturbed(g, Final(g, sch), ev) ==> Quiet(g, sch + [ev])
    ensures Calling(sch + [ev]) == Switch(Calling(sch), ev)
    ensures ev.Run? ==> Used(g, sch, ev.thread, sch + [ev])
    ensures !ev.Run? ==>
              && Users(g, sch) - (if ev.NleStart? || ev.NleStep? || ev.Return? then {ev.thread} else {}) <= Users(g, sch + [ev])
              && Final(g, sch + [ev]).outside.writer == Final(g, sch).outside.writer
  {
    hide Apart, Tame, Proper, Execute;
    assert (sch + [ev])[..|sch|] == sch;
  }

  lemma LastUserKept<S, A, O, R>(g: Game<S, A, O, R>, sch: seq<Event<S, A>>, ev: Event<S, A>, t: nat)
    requires Legal(g, sch) && CanDo(g, Final(g, sch), ev) && Quiet(g, sch) && Undisturbed(g, Final(g, sch), ev)
    requires Legal(g, sch + [ev]) && Exclusive(g, sch + [ev]) && t in Calling(sch + [ev])
    requires forall u | u in Calling(sch) :: LastUser(g, sch, u)
    ensures LastUser(g, sch + [ev], t)
  {
    hide Apart, Do, Tame, LegalFrom, RunFrom, Project, Legal, Final, Quiet, Proper, Users, Exclusive, Calling, HasReset, Undisturbed;
    UsersSnoc(g, sch, ev);
    UsersAreCalling(g, sch);
    var e := Calling(sch + [ev])[t];
    EnvironmentsIsolated(g, sch + [ev], e);
    EnvironmentsIsolated(g, sch, e);
    ProjectSnoc(sch, ev, e);
    OneCall(g, sch);
    if ev.NleEnd? || Owner(ev, Calling(sch)) != e {
      assert Project(sch + [ev], e) == Project(sch, e);
    } else {
      ResetSnoc(g, Project(sch, e), OneLocal(ev));
      if ev.Run? {
        NextOp(g, sch, ev.thread);
      }
    }
  }

  lemma OneCall<S, A, O, R>(g: Game<S, A, O, R>, sch: seq<Event<S, A>>)
    requires Legal(g, sch) && Quiet(g, sch)
    ensures forall t, t' | t in Calling(sch) && t' in Calling(sch) && t != t' :: Calling(sch)[t] != Calling(sch)[t']
  {
    hide Apart, Matches, Legal, Final, Quiet, Calling;
    var w := ScheduleSimulates(g, sch);
    UsersAreCalling(g, sch);
  }

  /** A game that stores to the variable before it reads it, in a schedule in which
      no two calls that use it overlap, with a directory for each environment, is
      never disturbed. */
  lemma {:induction false} QuietWhenExclusive<S(!new), A(!new), O, R>(g: Game<S, A, O, R>, sch: seq<Event<S, A>>)
    requires Legal(g, sch) && ResetsFirst(g) && OwnDirectories(sch) && Exclusive(g, sch)
    ensures Quiet(g, sch) && forall t | t in Calling(sch) :: LastUser(g, sch, t)
    decreases |sch|
  {
    if sch != [] {
      var front, ev := sch[..|sch| - 1], sch[|sch| - 1];
      assert sch == front + [ev];
      QuietWhenExclusive(g, front);
      NextUndisturbed(g, front, ev);
      UsersSnoc(g, front, ev);
      forall t | t in Calling(sch) ensures LastUser(g, sch, t) {
        LastUserKept(g, front, ev, t);
      }
    }
  }

  lemma NextUndisturbed<S(!new), A(!new), O, R>(g: Game<S, A, O, R>, sch: seq<Event<S, A>>, ev: Event<S, A>)
    requires Legal(g, sch) && ResetsFirst(g) && Quiet(g, sch) && CanDo(g, Final(g, sch), ev)
    requires ev.NleStart? ==> ev.at.hackdir !in InUse(sch).Values
    requires forall t | t in Calling(sch) :: LastUser(g, sch, t)
    ensures Undisturbed(g, Final(g, sch), ev)
  {
    hide Apart, Tame, LegalFrom, RunFrom, Project, Legal, Final, Quiet, Calling, HasReset, InUse, Users;
    UsersAreCalling(g, sch);
    if ev.NleStart? {
      DirectoriesInUse(g, sch);
      forall e | e in Final(g, sch).live ensures Final(g, sch).live[e].hackdir != ev.at.hackdir {
        assert InUse(sch)[e] == Final(g, sch).live[e].hackdir;
      }
    } else if ev.Run? && g.Next(Final(g, sch).active[ev.thread].regs).LoadDepth? {
      NextOp(g, sch, ev.thread);
      assert LastUser(g, sch, ev.thread);
      var p := Project(sch, Calling(sch)[ev.thread]);
      assert Can(g, RunFrom(g, Unborn, p), Tick);
    }
  }

  /** Isolation, under conditions on the schedule. */
  lemma IsolatedWhenExclusive<S(!new), A(!new), O, R>(g: Game<S, A, O, R>, sch: seq<Event<S, A>>, e: nat)
    requires Legal(g, sch) && ResetsFirst(g) && OwnDirectories(sch) && Exclusive(g, sch)
    ensures Isolated(g, sch, e)
    ensures LegalFrom(g, Unborn, Project(sch, e)) && ShownBy(Final(g, sch).log, e) == Observed(g, Unborn, Project(sch, e))
    ensures e in Final(g, sch).live ==> Matches(g, Final(g, sch), e, RunFrom(g, Unborn, Project(sch, e)))
  {
    QuietWhenExclusive(g, sch);
    EnvironmentsIsolated(g, sch, e);
  }
}
