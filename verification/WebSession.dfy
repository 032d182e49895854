// The browser session: one live game at a time, the knob queue that outlives
// the games, and live writes to the knobs of the running game.

module WebSession {
  import opened KnobQueue

  // ---- the session as a state machine over its calls ----

  datatype WebCall<V> = Tune(call: Call<V>) | LiveTune(idx: int, val: V) | Start | Step

  /** What the engine sees. Games are numbered in the order they are started. */
  datatype Event<V> = Started(game: nat, overrides: seq<Entry<V>>) | Stepped(game: nat) | Ended(game: nat)

  datatype WebState<V> = WebState(
    queue: seq<Entry<V>>,
    live: bool,           // g_nle is not null; it is then the last game started
    knobs: seq<seq<V>>,   // the knob block of every game started so far
    events: seq<Event<V>>)

  function Idle<V>(): WebState<V> { WebState([], false, [], []) }

  /** What the caller must see to: stepping and live tuning dereference g_nle,
      and live tuning indexes the knob block unchecked. */
  predicate Enabled<V>(s: WebState<V>, c: WebCall<V>) {
    && (s.live ==> s.knobs != [])
    && (c.Step? ==> s.live)
    && (c.LiveTune? ==> s.live && 0 <= c.idx < |s.knobs[|s.knobs| - 1]|)
  }

  function NextGame<V>(defaults: seq<V>, s: WebState<V>): WebState<V>
    requires s.live ==> s.knobs != []
  {
    var closed := if s.live then s.events + [Ended(|s.knobs| - 1)] else s.events;
    WebState(s.queue, true, s.knobs + [Overlay(defaults, s.queue)], closed + [Started(|s.knobs|, s.queue)])
  }

  function Do<V>(defaults: seq<V>, s: WebState<V>, c: WebCall<V>): WebState<V>
    requires Enabled(s, c)
  {
    var last := |s.knobs| - 1;
    match c
    case Tune(call) => s.(queue := Perform(s.queue, |defaults|, call))
    case LiveTune(idx, val) => s.(knobs := s.knobs[last := s.knobs[last][idx := val]])
    case Start => NextGame(defaults, s)
    case Step => s.(events := s.events + [Stepped(last)])
  }

  /** Every call of the run was made when the caller may make it. */
  predicate Legal<V>(defaults: seq<V>, calls: seq<WebCall<V>>)
    decreases |calls|, 0
  {
    calls == []
    || (Legal(defaults, calls[..|calls| - 1])
        && Enabled(Run(defaults, calls[..|calls| - 1]), calls[|calls| - 1]))
  }

  /** Where a run of calls leads from a fresh session. */
  function Run<V>(defaults: seq<V>, calls: seq<WebCall<V>>): WebState<V>
    requires Legal(defaults, calls)
    decreases |calls|, 1
  {
    if calls == [] then Idle()
    else Do(defaults, Run(defaults, calls[..|calls| - 1]), calls[|calls| - 1])
  }

  // ---- the code ----

  class Game<V(0)> {
    const knobs: array<V>
    ghost var alive: bool // allocated and not yet ended

    /** nle_start: the knobs begin at their defaults, then the overrides in the
        settings are applied, before the first level is made. */
    constructor NleStart(defaults: seq<V>, settings: KnobList<V>)
      requires settings.Valid()
      ensures alive && fresh(knobs)
      ensures knobs[..] == Overlay(defaults, settings.contents)
    {
      knobs := new V[|defaults|](i requires 0 <= i < |defaults| => defaults[i]);
      alive := true;
      new;
      ghost var q := settings.contents;
      var k := 0;
      while k < settings.n && k < NLE_TUNE_MAX
        invariant 0 <= k <= settings.n
        invariant alive && q == settings.contents
        invariant knobs[..] == Overlay(defaults, q[..k])
      {
        var idx := settings.idx[k];
        assert q[..k + 1][..k] == q[..k];
        if 0 <= idx < |defaults| {
          knobs[idx] := settings.val[k];
        }
        k := k + 1;
      }
      assert q[..k] == q;
    }

    /** nle_step hands its argument back. */
    method NleStep() returns (same: Game<V>)
      requires alive
      ensures same == this
    {
      same := this;
    }

    /** nle_end frees the context block. */
    ghost method NleEnd()
      requires alive
      modifies `alive
      ensures !alive
    {
      alive := false;
    }
  }

  class WebSession<V(0)> {
    const defaults: seq<V>
    const queue: KnobList<V>    // g_tune_n, g_tune_idx, g_tune_val
    const settings: KnobList<V> // the tune fields of the static nle_settings
    var gNle: Game?<V>
    ghost var past: seq<seq<V>> // the knob blocks of the ended games, as they were when ended
    ghost var events: seq<Event<V>>

    ghost predicate Valid()
      reads this, queue, settings, queue.idx, queue.val, settings.idx, settings.val, gNle
    {
      && Separate()
      && (if gNle == null then past == [] else gNle.alive && OwnKnobs(gNle.knobs))
    }

    ghost predicate Separate()
      reads queue, settings, queue.idx, queue.val, settings.idx, settings.val
    {
      && queue != settings && queue.Valid() && settings.Valid()
      && {queue.idx as object, queue.val} !! {settings.idx as object, settings.val}
    }

    ghost predicate OwnKnobs(knobs: array<V>) {
      && knobs.Length == |defaults|
      && knobs as object !in {queue.idx as object, queue.val, settings.idx, settings.val}
    }

    ghost function View(): WebState<V>
      reads this, queue, gNle, if gNle == null then {} else {gNle.knobs}
    {
      WebState(queue.contents, gNle != null, if gNle == null then past else past + [gNle.knobs[..]], events)
    }

    constructor (defaults: seq<V>)
      ensures Valid() && View() == Idle() && this.defaults == defaults
    {
      this.defaults := defaults;
      queue := new KnobList();
      settings := new KnobList();
      gNle := null;
      past := [];
      events := [];
    }

    method ClearTune()
      requires Valid()
      modifies queue
      ensures Valid() && View() == Do(defaults, old(View()), Tune(KnobQueue.ClearTune))
    {
      queue.ClearTune();
    }

    method SetTune(idx: int, val: V)
      requires Valid()
      modifies queue, queue.idx, queue.val
      ensures Valid() && View() == Do(defaults, old(View()), Tune(KnobQueue.SetTune(idx, val)))
    {
      queue.SetTune(|defaults|, idx, val);
    }

    method LiveTune(idx: int, val: V)
      requires Valid() && Enabled(View(), WebCall.LiveTune(idx, val))
      modifies if gNle == null then {} else {gNle.knobs}
      ensures Valid() && View() == Do(defaults, old(View()), WebCall.LiveTune(idx, val))
      ensures gNle == old(gNle) && gNle.knobs[..] == old(gNle.knobs[..])[idx := val]
    {
      gNle.knobs[idx] := val;
    }

    method Step()
      requires Valid() && Enabled(View(), WebCall.Step)
      modifies `gNle, `events
      ensures Valid() && View() == Do(defaults, old(View()), WebCall.Step)
    {
      gNle := gNle.NleStep();
      events := events + [Stepped(|past|)];
    }

    /** nleweb_start: end the game before, if there is one, refill the settings
        from the queue and start a new game with them. */
    method Start()
      requires Valid()
      modifies this, settings, settings.idx, settings.val, if gNle == null then {} else {gNle}
      ensures Valid() && fresh(gNle)
      ensures View() == Do(defaults, old(View()), WebCall.Start)
    {
      if gNle != null {
        gNle.NleEnd();
        past, events := past + [gNle.knobs[..]], events + [Ended(|past|)];
        gNle := null;
      }
      settings.ClearTune();
      settings.CopyFrom(queue);
      gNle := new Game.NleStart(defaults, settings);
      events := events + [Started(|past|, settings.contents)];
      assert View() == NextGame(defaults, old(View()));
    }
  }

  // ---- what holds over every run ----

  ghost predicate WasStarted<V>(events: seq<Event<V>>, g: nat) {
    exists i | 0 <= i < |events| :: events[i].Started? && events[i].game == g
  }

  ghost predicate WasEnded<V>(events: seq<Event<V>>, g: nat) {
    exists i | 0 <= i < |events| :: events[i].Ended? && events[i].game == g
  }

  /** The games started and not ended. */
  ghost function Open<V>(events: seq<Event<V>>): set<nat> {
    set i | 0 <= i < |events| && events[i].Started? && !WasEnded(events, events[i].game) :: events[i].game
  }

  /** After a game is ended nothing touches it: it is not ended again, not
      stepped, and its number is not reused. */
  ghost predicate NoUseAfterEnd<V>(events: seq<Event<V>>) {
    forall j | 0 <= j < |events| :: !WasEnded(events[..j], events[j].game)
  }

  /** Every game that is stepped or ended was started before, and a game is
      started only once. */
  ghost predicate StartedOnceBefore<V>(events: seq<Event<V>>) {
    forall j | 0 <= j < |events| :: WasStarted(events[..j], events[j].game) == !events[j].Started?
  }

  ghost predicate Lifecycle<V>(s: WebState<V>) {
    && (s.live <==> s.knobs != [])
    && (forall g: nat :: WasStarted(s.events, g) <==> g < |s.knobs|)
    && (forall g: nat :: WasEnded(s.events, g) <==> g < |s.knobs| - 1)
    && NoUseAfterEnd(s.events)
    && StartedOnceBefore(s.events)
  }

  lemma EventsSnoc<V>(es: seq<Event<V>>, e: Event<V>, g: nat)
    ensures WasStarted(es + [e], g) <==> WasStarted(es, g) || (e.Started? && e.game == g)
    ensures WasEnded(es + [e], g) <==> WasEnded(es, g) || (e.Ended? && e.game == g)
  {
    var more := es + [e];
    assert more[|es|] == e && forall i | 0 <= i < |es| :: more[i] == es[i];
    if WasStarted(es, g) {
      var i :| 0 <= i < |es| && es[i].Started? && es[i].game == g;
      assert more[i].Started?;
    }
    if WasEnded(es, g) {
      var i :| 0 <= i < |es| && es[i].Ended? && es[i].game == g;
      assert more[i].Ended?;
    }
  }

  lemma OrderSnoc<V>(es: seq<Event<V>>, e: Event<V>)
    requires NoUseAfterEnd(es) && StartedOnceBefore(es)
    requires !WasEnded(es, e.game) && WasStarted(es, e.game) == !e.Started?
    ensures NoUseAfterEnd(es + [e]) && StartedOnceBefore(es + [e])
  {
    var more := es + [e];
    forall j | 0 <= j < |more|
      ensures !WasEnded(more[..j], more[j].game) && WasStarted(more[..j], more[j].game) == !more[j].Started?
    {
      assert more[..j] == es[..j];
      assert es[..|es|] == es;
    }
  }

  lemma StepKeepsLifecycle<V>(defaults: seq<V>, s: WebState<V>, c: WebCall<V>)
    requires Enabled(s, c) && Lifecycle(s)
    ensures Lifecycle(Do(defaults, s, c))
  {
    var t := Do(defaults, s, c);
    if c.Step? {
      OrderSnoc(s.events, Stepped(|s.knobs| - 1));
      forall g: nat ensures WasStarted(t.events, g) == WasStarted(s.events, g) && WasEnded(t.events, g) == WasEnded(s.events, g) {
        EventsSnoc(s.events, Stepped(|s.knobs| - 1), g);
      }
    } else if c.Start? {
      StartKeepsLifecycle(defaults, s);
    }
  }

  lemma StartKeepsLifecycle<V>(defaults: seq<V>, s: WebState<V>)
    requires Enabled(s, WebCall.Start) && Lifecycle(s)
    ensures Lifecycle(Do(defaults, s, WebCall.Start))
  {
    var t := Do(defaults, s, WebCall.Start);
    var closed := s.events;
    if s.live {
      var end: Event<V> := Ended(|s.knobs| - 1);
      closed := s.events + [end];
      OrderSnoc(s.events, end);
    }
    forall g: nat ensures WasStarted(closed, g) == (g < |s.knobs|) && WasEnded(closed, g) == (g < |s.knobs|) {
      if s.live {
        EventsSnoc(s.events, Ended(|s.knobs| - 1), g);
      }
    }
    var start := Started(|s.knobs|, s.queue);
    assert t.events == closed + [start];
    OrderSnoc(closed, start);
    forall g: nat ensures WasStarted(t.events, g) == (g < |t.knobs|) && WasEnded(t.events, g) == (g < |t.knobs| - 1) {
      EventsSnoc(closed, start, g);
    }
  }

  lemma {:induction false} LifecycleHolds<V>(defaults: seq<V>, calls: seq<WebCall<V>>)
    requires Legal(defaults, calls)
    ensures Lifecycle(Run(defaults, calls))
  {
    if calls != [] {
      LifecycleHolds(defaults, calls[..|calls| - 1]);
      StepKeepsLifecycle(defaults, Run(defaults, calls[..|calls| - 1]), calls[|calls| - 1]);
    }
  }

  /** Over every run, the contexts started and not ended are exactly the live
      one, so none leaks; none is used after it was ended, in particular none is
      ended twice; and each is started once, before any other use. */
  lemma OneLiveGame<V>(defaults: seq<V>, calls: seq<WebCall<V>>)
    requires Legal(defaults, calls)
    ensures var s := Run(defaults, calls);
            && Open(s.events) == (if s.live then {|s.knobs| - 1} else {})
            && NoUseAfterEnd(s.events)
            && StartedOnceBefore(s.events)
  {
    LifecycleHolds(defaults, calls);
    var s := Run(defaults, calls);
    forall g: nat ensures g in Open(s.events) <==> s.live && g == |s.knobs| - 1 {
      assert WasStarted(s.events, g) <==> g < |s.knobs|;
      assert WasEnded(s.events, g) <==> g < |s.knobs| - 1;
      if WasStarted(s.events, g) {
        var i :| 0 <= i < |s.events| && s.events[i].Started? && s.events[i].game == g;
      }
    }
  }

  /** The set and clear calls of a run, in order. */
  function TuneCalls<V>(calls: seq<WebCall<V>>): seq<Call<V>> {
    if calls == [] then []
    else
      var before := TuneCalls(calls[..|calls| - 1]);
      if calls[|calls| - 1].Tune? then before + [calls[|calls| - 1].call] else before
  }

  /** Starting, stepping and live tuning leave the queue alone. */
  lemma {:induction false} QueueSurvivesGames<V>(defaults: seq<V>, calls: seq<WebCall<V>>)
    requires Legal(defaults, calls)
    ensures Run(defaults, calls).queue == Queue(|defaults|, TuneCalls(calls))
  {
    if calls != [] {
      var before := calls[..|calls| - 1];
      QueueSurvivesGames(defaults, before);
      if calls[|calls| - 1].Tune? {
        var all := TuneCalls(calls);
        assert all[..|all| - 1] == TuneCalls(before);
      }
    }
  }

  lemma {:induction false} QueueUnchanged<V>(defaults: seq<V>, calls: seq<WebCall<V>>, i: nat)
    requires Legal(defaults, calls) && i <= |calls|
    requires forall k | i <= k < |calls| :: !calls[k].Tune?
    ensures Legal(defaults, calls[..i]) && Run(defaults, calls).queue == Run(defaults, calls[..i]).queue
  {
    if i < |calls| {
      var before := calls[..|calls| - 1];
      QueueUnchanged(defaults, before, i);
      assert before[..i] == calls[..i];
    } else {
      assert calls[..i] == calls;
    }
  }

  lemma LegalPrefix<V>(defaults: seq<V>, calls: seq<WebCall<V>>, i: nat)
    requires Legal(defaults, calls) && i <= |calls|
    ensures Legal(defaults, calls[..i])
    decreases |calls|
  {
    if i < |calls| {
      LegalPrefix(defaults, calls[..|calls| - 1], i);
      assert calls[..|calls| - 1][..i] == calls[..i];
    } else {
      assert calls[..i] == calls;
    }
  }

  /** The override list the start at the end of a run passes to the engine. */
  function Overrides<V>(defaults: seq<V>, calls: seq<WebCall<V>>): seq<Entry<V>>
    requires Legal(defaults, calls) && calls != [] && calls[|calls| - 1].Start?
  {
    var events := Run(defaults, calls).events;
    events[|events| - 1].overrides
  }

  lemma StartPassesQueue<V>(defaults: seq<V>, calls: seq<WebCall<V>>, i: nat)
    requires Legal(defaults, calls) && i < |calls| && calls[i].Start?
    ensures Legal(defaults, calls[..i]) && Legal(defaults, calls[..i + 1])
    ensures Overrides(defaults, calls[..i + 1]) == Run(defaults, calls[..i]).queue
    ensures var t := Run(defaults, calls[..i + 1]);
            t.knobs != [] && t.knobs[|t.knobs| - 1] == Overlay(defaults, Run(defaults, calls[..i]).queue)
  {
    LegalPrefix(defaults, calls, i);
    LegalPrefix(defaults, calls, i + 1);
    assert calls[..i + 1][..i] == calls[..i];
  }

  /** The knobs of a game started after any run of calls: knob by knob, the last
      value set for it since the last clear if it was among the first
      NLE_TUNE_MAX set, and the default otherwise. Live writes do not appear. */
  lemma FreshGameKnobs<V>(defaults: seq<V>, calls: seq<WebCall<V>>, i: nat)
    requires Legal(defaults, calls) && i < |defaults|
    ensures Legal(defaults, calls + [WebCall.Start])
    ensures var knobs := Run(defaults, calls + [WebCall.Start]).knobs;
            var log := Accepted(|defaults|, TuneCalls(calls));
            && knobs != [] && |knobs[|knobs| - 1]| == |defaults|
            && (AmongFirst(log, i) ==> i in Indices(log))
            && knobs[|knobs| - 1][i] == if AmongFirst(log, i) then LastValue(log, i) else defaults[i]
  {
    var next := calls + [WebCall.Start];
    assert next[..|calls|] == calls && next[..|next|] == next;
    LifecycleHolds(defaults, calls);
    StartPassesQueue(defaults, next, |calls|);
    QueueSurvivesGames(defaults, calls);
    QueuedValue(|defaults|, TuneCalls(calls), defaults, i);
  }

  /** Two starts with no set or clear between them pass identical overrides and
      give identical knobs, whatever the games in between did to theirs. */
  lemma RestartsAgree<V>(defaults: seq<V>, calls: seq<WebCall<V>>, i: nat, j: nat)
    requires Legal(defaults, calls) && i < j < |calls|
    requires calls[i].Start? && calls[j].Start?
    requires forall k | i < k < j :: !calls[k].Tune?
    ensures Legal(defaults, calls[..i + 1]) && Legal(defaults, calls[..j + 1])
    ensures Overrides(defaults, calls[..i + 1]) == Overrides(defaults, calls[..j + 1])
    ensures var s, t := Run(defaults, calls[..i + 1]).knobs, Run(defaults, calls[..j + 1]).knobs;
            s != [] && t != [] && s[|s| - 1] == t[|t| - 1]
  {
    hide *;
    StartPassesQueue(defaults, calls, i);
    StartPassesQueue(defaults, calls, j);
    QueueUnchanged(defaults, calls[..j], i);
    assert calls[..j][..i] == calls[..i];
  }

  /** Once a game has been replaced, no later call changes its knobs. */
  lemma {:induction false} EndedGamesFrozen<V>(defaults: seq<V>, calls: seq<WebCall<V>>, i: nat, g: nat)
    requires Legal(defaults, calls) && i <= |calls|
    requires Legal(defaults, calls[..i]) && g + 1 < |Run(defaults, calls[..i]).knobs|
    ensures |Run(defaults, calls[..i]).knobs| <= |Run(defaults, calls).knobs|
    ensures Run(defaults, calls).knobs[g] == Run(defaults, calls[..i]).knobs[g]
  {
    if i < |calls| {
      var before := calls[..|calls| - 1];
      assert before[..i] == calls[..i];
      EndedGamesFrozen(defaults, before, i, g);
    } else {
      assert calls[..i] == calls;
    }
  }

  // ---- the live game ----

  /** The value that the calls of a run give knob `j` of the live game: that of the
      last live write to it since the last start; or else what that start gave it, the
      last value set for it since the last clear, if it was among the first
      NLE_TUNE_MAX set, or its default. */
  ghost function Wanted<V>(defaults: seq<V>, calls: seq<WebCall<V>>, j: nat): V
    requires j < |defaults|
  {
    if calls == [] then defaults[j]
    else
      var front, call := calls[..|calls| - 1], calls[|calls| - 1];
      var log := Accepted(|defaults|, TuneCalls(front));
      if call.LiveTune? && call.idx == j then call.val
      else if call.Start? then if AmongFirst(log, j) && j in Indices(log) then LastValue(log, j) else defaults[j]
      else Wanted(defaults, front, j)
  }

  /** Over every run, each knob of the live game has the value the calls gave it. */
  lemma {:induction false} LiveKnobs<V>(defaults: seq<V>, calls: seq<WebCall<V>>, j: nat)
    requires Legal(defaults, calls) && j < |defaults|
    ensures var s := Run(defaults, calls);
            s.live ==> s.knobs != [] && |s.knobs[|s.knobs| - 1]| == |defaults|
                       && s.knobs[|s.knobs| - 1][j] == Wanted(defaults, calls, j)
    decreases |calls|
  {
    if calls != [] {
      var front := calls[..|calls| - 1];
      hide Accepted, AmongFirst, Indices, Overlay, TuneCalls, Perform;
      LiveKnobs(defaults, front, j);
      if calls[|calls| - 1].Start? {
        FreshGameKnobs(defaults, front, j);
        assert calls == front + [WebCall.Start];
        hide Run, Legal;
      }
    }
  }

  /** Which calls the caller may make after a run: setting, clearing and starting always;
      stepping and live tuning once a game was started, and live tuning of the knobs
      there are. */
  lemma MayCall<V>(defaults: seq<V>, calls: seq<WebCall<V>>, c: WebCall<V>)
    requires Legal(defaults, calls)
    ensures Enabled(Run(defaults, calls), c) <==>
              && (c.Step? || c.LiveTune? ==> Starts(calls) > 0)
              && (c.LiveTune? ==> 0 <= c.idx < |defaults|)
  {
    EveryCallSeen(defaults, calls, 0);
    LifecycleHolds(defaults, calls);
    LiveLength(defaults, calls);
  }

  /** The runs are exactly the sequences of such calls. */
  lemma {:induction false} LegalExact<V>(defaults: seq<V>, calls: seq<WebCall<V>>)
    ensures Legal(defaults, calls) <==>
              forall i | 0 <= i < |calls| ::
                && (calls[i].Step? || calls[i].LiveTune? ==> Starts(calls[..i]) > 0)
                && (calls[i].LiveTune? ==> 0 <= calls[i].idx < |defaults|)
    decreases |calls|
  {
    if calls != [] {
      var front := calls[..|calls| - 1];
      LegalExact(defaults, front);
      assert forall i | 0 <= i < |front| :: calls[i] == front[i] && calls[..i] == front[..i];
      if Legal(defaults, front) {
        MayCall(defaults, front, calls[|calls| - 1]);
      }
    }
  }

  lemma {:induction false} LiveLength<V>(defaults: seq<V>, calls: seq<WebCall<V>>)
    requires Legal(defaults, calls)
    ensures forall g: nat | g < |Run(defaults, calls).knobs| :: |Run(defaults, calls).knobs[g]| == |defaults|
    decreases |calls|
  {
    if calls != [] {
      LiveLength(defaults, calls[..|calls| - 1]);
    }
  }

  /** A live write is to the live game only, and to one knob of it. */
  lemma LiveWriteExact<V>(defaults: seq<V>, s: WebState<V>, idx: int, val: V, g: nat, j: nat)
    requires Enabled(s, WebCall.LiveTune(idx, val)) && g < |s.knobs| && j < |s.knobs[g]|
    ensures var t := Do(defaults, s, WebCall.LiveTune(idx, val));
            && |t.knobs| == |s.knobs| && |t.knobs[g]| == |s.knobs[g]|
            && t.knobs[g][j] == (if g == |s.knobs| - 1 && j == idx then val else s.knobs[g][j])
            && t.queue == s.queue && t.live == s.live && t.events == s.events
  {
  }

  /** The games started by a run. */
  function Starts<V>(calls: seq<WebCall<V>>): nat {
    if calls == [] then 0 else Starts(calls[..|calls| - 1]) + if calls[|calls| - 1].Start? then 1 else 0
  }

  /** The step calls that a run makes while game `g` is the last one started. */
  function StepsOf<V>(calls: seq<WebCall<V>>, g: nat): nat {
    if calls == [] then 0
    else
      var front := calls[..|calls| - 1];
      StepsOf(front, g) + if calls[|calls| - 1].Step? && Starts(front) == g + 1 then 1 else 0
  }

  /** How often the engine was seen to step game `g`. */
  function StepsSeen<V>(events: seq<Event<V>>, g: nat): nat {
    if events == [] then 0
    else
      var e := events[|events| - 1];
      StepsSeen(events[..|events| - 1], g) + if e.Stepped? && e.game == g then 1 else 0
  }

  lemma StepsSnoc<V>(events: seq<Event<V>>, e: Event<V>, g: nat)
    ensures StepsSeen(events + [e], g) == StepsSeen(events, g) + if e.Stepped? && e.game == g then 1 else 0
  {
    assert (events + [e])[..|events|] == events;
  }

  /** Every start starts a game, every step steps the last one started, and nothing
      else starts or steps any. */
  lemma {:induction false} EveryCallSeen<V>(defaults: seq<V>, calls: seq<WebCall<V>>, g: nat)
    requires Legal(defaults, calls)
    ensures var s := Run(defaults, calls);
            && |s.knobs| == Starts(calls) && (s.live <==> Starts(calls) > 0)
            && StepsSeen(s.events, g) == StepsOf(calls, g)
    decreases |calls|
  {
    if calls != [] {
      var front, c := calls[..|calls| - 1], calls[|calls| - 1];
      EveryCallSeen(defaults, front, g);
      CallSeen(defaults, Run(defaults, front), c, g);
      hide Do, Enabled, StepsSeen;
    }
  }

  /** One call: what it starts and steps. */
  lemma CallSeen<V>(defaults: seq<V>, s: WebState<V>, c: WebCall<V>, g: nat)
    requires Enabled(s, c)
    ensures var t := Do(defaults, s, c);
            && |t.knobs| == |s.knobs| + (if c.Start? then 1 else 0) && (t.live <==> s.live || c.Start?)
            && StepsSeen(t.events, g) == StepsSeen(s.events, g) + if c.Step? && |s.knobs| == g + 1 then 1 else 0
  {
    hide StepsSeen;
    var last := if s.knobs == [] then 0 else |s.knobs| - 1;
    if c.Step? {
      StepsSnoc(s.events, Stepped(last), g);
    } else if c.Start? {
      var closed := if s.live then s.events + [Ended(last)] else s.events;
      StepsSnoc(s.events, Ended(last), g);
      StepsSnoc(closed, Started(|s.knobs|, s.queue), g);
    }
  }
}
