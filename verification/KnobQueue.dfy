// The queue of difficulty-knob overrides that the browser API keeps between
// games, and what it means in terms of the calls that were made.

module KnobQueue {

  const NLE_TUNE_MAX: nat := 64

  datatype Entry<V> = Entry(idx: int, val: V)

  datatype Call<V> = SetTune(idx: int, val: V) | ClearTune

  // ---- the queue as the code builds it ----

  /** Where the search loop of `SetTune` stops: the first entry for `idx`, or the end. */
  function Position<V>(q: seq<Entry<V>>, idx: int): (k: nat)
    ensures k <= |q|
    ensures k < |q| ==> q[k].idx == idx
    ensures forall j | 0 <= j < k :: q[j].idx != idx
  {
    if q == [] || q[0].idx == idx then 0 else 1 + Position(q[1..], idx)
  }

  function Enqueue<V>(q: seq<Entry<V>>, catalog: nat, idx: int, val: V): seq<Entry<V>> {
    if !(0 <= idx < catalog) then q
    else
      var k := Position(q, idx);
      if k < |q| then q[k := Entry(idx, val)]
      else if |q| < NLE_TUNE_MAX then q + [Entry(idx, val)]
      else q
  }

  function Perform<V>(q: seq<Entry<V>>, catalog: nat, call: Call<V>): seq<Entry<V>> {
    match call
    case SetTune(idx, val) => Enqueue(q, catalog, idx, val)
    case ClearTune => []
  }

  /** The queue after a whole run of calls. */
  function Queue<V>(catalog: nat, calls: seq<Call<V>>): seq<Entry<V>> {
    if calls == [] then []
    else Perform(Queue(catalog, calls[..|calls| - 1]), catalog, calls[|calls| - 1])
  }

  /** A list of overrides in two arrays: the statics behind `nleweb_set_tune`,
      and again the fields of the settings a game is started with. */
  class KnobList<V(0)> {
    ghost var contents: seq<Entry<V>>
    var n: nat
    const idx: array<int>
    const val: array<V>

    ghost predicate Valid()
      reads this, idx, val
    {
      && idx.Length == val.Length == NLE_TUNE_MAX && idx as object != val as object
      && n == |contents| <= NLE_TUNE_MAX
      && forall k | 0 <= k < n :: contents[k] == Entry(idx[k], val[k])
    }

    constructor ()
      ensures Valid() && contents == [] && fresh(idx) && fresh(val)
    {
      contents := [];
      n := 0;
      idx := new int[NLE_TUNE_MAX];
      val := new V[NLE_TUNE_MAX];
    }

    method ClearTune()
      requires Valid()
      modifies this
      ensures Valid() && contents == []
    {
      n := 0;
      contents := [];
    }

    /** Queue `newVal` for knob `knob`, over an earlier value for the same knob. */
    method SetTune(catalog: nat, knob: int, newVal: V)
      requires Valid()
      modifies this, idx, val
      ensures Valid() && contents == Enqueue(old(contents), catalog, knob, newVal)
    {
      if knob < 0 || knob >= catalog {
        return;
      }
      var k := 0;
      while k < n
        invariant k <= n
        invariant forall j | 0 <= j < k :: contents[j].idx != knob
      {
        if idx[k] == knob {
          assert contents[k].idx == knob;
          val[k] := newVal;
          contents := contents[k := Entry(knob, newVal)];
          return;
        }
        k := k + 1;
      }
      if n < NLE_TUNE_MAX {
        idx[n] := knob;
        val[n] := newVal;
        n := n + 1;
        contents := contents + [Entry(knob, newVal)];
      }
    }

    /** Make this list a copy of another one, entry by entry. */
    method CopyFrom(src: KnobList<V>)
      requires Valid() && src.Valid() && src != this
      requires {idx as object, val} !! {src.idx as object, src.val}
      modifies this, idx, val
      ensures Valid() && contents == src.contents
    {
      n := src.n;
      var k := 0;
      while k < src.n
        modifies idx, val
        invariant 0 <= k <= src.n && n == src.n
        invariant forall j | 0 <= j < k :: idx[j] == src.idx[j] && val[j] == src.val[j]
      {
        idx[k] := src.idx[k];
        val[k] := src.val[k];
        k := k + 1;
      }
      contents := src.contents;
    }
  }

  // ---- the reference: what the calls say, with no queue in it ----

  /** The accepted set calls since the last clear, in call order. */
  function Accepted<V>(catalog: nat, calls: seq<Call<V>>): seq<Entry<V>> {
    if calls == [] then []
    else
      var before := Accepted(catalog, calls[..|calls| - 1]);
      match calls[|calls| - 1]
      case ClearTune => []
      case SetTune(idx, val) => if 0 <= idx < catalog then before + [Entry(idx, val)] else before
  }

  ghost function Indices<V>(log: seq<Entry<V>>): set<int> {
    set k | 0 <= k < |log| :: log[k].idx
  }

  function LastValue<V>(log: seq<Entry<V>>, i: int): V
    requires exists k | 0 <= k < |log| :: log[k].idx == i
  {
    var e := log[|log| - 1];
    if e.idx == i then e.val else LastValue(log[..|log| - 1], i)
  }

  /** `i` is among the first NLE_TUNE_MAX distinct indices of the log. */
  ghost predicate AmongFirst<V>(log: seq<Entry<V>>, i: int) {
    exists p | 0 <= p < |log| :: log[p].idx == i && |Indices(log[..p])| < NLE_TUNE_MAX
  }

  ghost predicate Distinct<V>(q: seq<Entry<V>>) {
    forall j, k | 0 <= j < k < |q| :: q[j].idx != q[k].idx
  }

  // ---- the queue refines the log ----

  lemma IndicesSnoc<V>(log: seq<Entry<V>>, e: Entry<V>)
    ensures Indices(log + [e]) == Indices(log) + {e.idx}
  {
    var more := log + [e];
    forall i | i in Indices(log) + {e.idx} ensures i in Indices(more) {
      if i == e.idx {
        assert more[|log|].idx == i;
      } else {
        var k :| 0 <= k < |log| && log[k].idx == i;
        assert more[k].idx == i;
      }
    }
  }

  lemma {:induction false} DistinctSize<V>(q: seq<Entry<V>>)
    requires Distinct(q)
    ensures |Indices(q)| == |q|
  {
    if q != [] {
      var front, e := q[..|q| - 1], q[|q| - 1];
      DistinctSize(front);
      assert q == front + [e];
      IndicesSnoc(front, e);
    }
  }

  lemma SubsetSize(a: set<int>, b: set<int>)
    requires a <= b
    ensures |a| <= |b|
  {
    assert b == a + (b - a);
  }

  lemma AmongFirstSnoc<V>(log: seq<Entry<V>>, e: Entry<V>, i: int)
    ensures AmongFirst(log + [e], i) <==> AmongFirst(log, i) || (i == e.idx && |Indices(log)| < NLE_TUNE_MAX)
  {
    var more := log + [e];
    assert forall p | 0 <= p <= |log| :: more[..p] == log[..p];
    assert log[..|log|] == log;
    if AmongFirst(log, i) {
      var p :| 0 <= p < |log| && log[p].idx == i && |Indices(log[..p])| < NLE_TUNE_MAX;
      assert more[p].idx == i && |Indices(more[..p])| < NLE_TUNE_MAX;
    }
    if i == e.idx && |Indices(log)| < NLE_TUNE_MAX {
      assert more[|log|].idx == i && |Indices(more[..|log|])| < NLE_TUNE_MAX;
    }
  }

  ghost predicate LastValues<V>(q: seq<Entry<V>>, log: seq<Entry<V>>) {
    forall k | 0 <= k < |q| :: q[k].idx in Indices(log) && q[k].val == LastValue(log, q[k].idx)
  }

  ghost predicate Refines<V>(q: seq<Entry<V>>, log: seq<Entry<V>>) {
    && Distinct(q)
    && |q| <= NLE_TUNE_MAX
    && (|q| < NLE_TUNE_MAX ==> Indices(q) == Indices(log))
    && (forall i :: i in Indices(q) <==> AmongFirst(log, i))
    && LastValues(q, log)
  }

  lemma AppendDistinct<V>(q: seq<Entry<V>>, e: Entry<V>)
    requires Distinct(q) && e.idx !in Indices(q)
    ensures Distinct(q + [e])
  {
    assert forall k | 0 <= k < |q| :: q[k].idx in Indices(q);
  }

  lemma AppendLastValues<V>(q: seq<Entry<V>>, log: seq<Entry<V>>, e: Entry<V>)
    requires LastValues(q, log) && e.idx !in Indices(q)
    ensures LastValues(q + [e], log + [e])
  {
    IndicesSnoc(log, e);
    assert (log + [e])[..|log|] == log;
    assert forall k | 0 <= k < |q| :: q[k].idx in Indices(q);
  }

  lemma OverwriteRefines<V>(q: seq<Entry<V>>, log: seq<Entry<V>>, k: nat, e: Entry<V>)
    requires Refines(q, log) && k < |q| && q[k].idx == e.idx
    ensures Refines(q[k := e], log + [e])
  {
    var q', log' := q[k := e], log + [e];
    IndicesSnoc(log, e);
    assert log'[..|log|] == log;
    assert Indices(q') == Indices(q) by {
      assert forall j | 0 <= j < |q| :: q'[j].idx == q[j].idx;
    }
    forall i ensures i in Indices(q') <==> AmongFirst(log', i) {
      AmongFirstSnoc(log, e, i);
      assert e.idx in Indices(q);
    }
  }

  lemma AppendRefines<V>(q: seq<Entry<V>>, log: seq<Entry<V>>, e: Entry<V>)
    requires Refines(q, log) && e.idx !in Indices(q) && |q| < NLE_TUNE_MAX
    ensures Refines(q + [e], log + [e])
  {
    var q', log' := q + [e], log + [e];
    IndicesSnoc(log, e);
    IndicesSnoc(q, e);
    DistinctSize(q);
    AppendDistinct(q, e);
    AppendLastValues(q, log, e);
    forall i ensures i in Indices(q') <==> AmongFirst(log', i) {
      AmongFirstSnoc(log, e, i);
    }
  }

  lemma DropRefines<V>(q: seq<Entry<V>>, log: seq<Entry<V>>, e: Entry<V>)
    requires Refines(q, log) && e.idx !in Indices(q) && |q| == NLE_TUNE_MAX
    ensures Refines(q, log + [e])
  {
    var log' := log + [e];
    IndicesSnoc(log, e);
    DistinctSize(q);
    SubsetSize(Indices(q), Indices(log));
    assert log'[..|log|] == log;
    assert forall j | 0 <= j < |q| :: q[j].idx in Indices(q);
    forall i ensures i in Indices(q) <==> AmongFirst(log', i) {
      AmongFirstSnoc(log, e, i);
    }
  }

  lemma EnqueueRefines<V>(q: seq<Entry<V>>, log: seq<Entry<V>>, catalog: nat, e: Entry<V>)
    requires Refines(q, log) && 0 <= e.idx < catalog
    ensures Refines(Enqueue(q, catalog, e.idx, e.val), log + [e])
  {
    var k := Position(q, e.idx);
    if k < |q| {
      OverwriteRefines(q, log, k, e);
    } else if |q| < NLE_TUNE_MAX {
      AppendRefines(q, log, e);
    } else {
      DropRefines(q, log, e);
    }
  }

  /** The queue holds exactly the first NLE_TUNE_MAX distinct valid indices set
      since the last clear, each once, each with the last value set for it. */
  lemma {:induction false} QueueRefinesLog<V>(catalog: nat, calls: seq<Call<V>>)
    ensures Refines(Queue(catalog, calls), Accepted(catalog, calls))
  {
    if calls != [] {
      var before, call := calls[..|calls| - 1], calls[|calls| - 1];
      QueueRefinesLog(catalog, before);
      if call.SetTune? && 0 <= call.idx < catalog {
        EnqueueRefines(Queue(catalog, before), Accepted(catalog, before), catalog, Entry(call.idx, call.val));
      }
    }
  }

  // ---- applying overrides to a knob array ----

  /** The knobs after applying the entries one after the other, skipping any
      index outside the array. */
  function Overlay<V>(knobs: seq<V>, entries: seq<Entry<V>>): (r: seq<V>)
    ensures |r| == |knobs|
  {
    if entries == [] then knobs
    else
      var r, e := Overlay(knobs, entries[..|entries| - 1]), entries[|entries| - 1];
      if 0 <= e.idx < |r| then r[e.idx := e.val] else r
  }

  lemma {:induction false} OverlayAt<V>(knobs: seq<V>, entries: seq<Entry<V>>, i: nat)
    requires i < |knobs|
    ensures Overlay(knobs, entries)[i] == if i in Indices(entries) then LastValue(entries, i) else knobs[i]
  {
    if entries != [] {
      var front, e := entries[..|entries| - 1], entries[|entries| - 1];
      OverlayAt(knobs, front, i);
      assert entries == front + [e];
      IndicesSnoc(front, e);
    }
  }

  lemma {:induction false} LastValueIn<V>(log: seq<Entry<V>>, i: int)
    requires i in Indices(log)
    ensures Entry(i, LastValue(log, i)) in log
  {
    var front, e := log[..|log| - 1], log[|log| - 1];
    if e.idx != i {
      assert log == front + [e];
      IndicesSnoc(front, e);
      LastValueIn(front, i);
    }
  }

  /** With no index queued twice, the order of the entries does not matter. */
  lemma OverlayAnyOrder<V>(knobs: seq<V>, q: seq<Entry<V>>, reordered: seq<Entry<V>>)
    requires Distinct(q) && multiset(reordered) == multiset(q)
    ensures Overlay(knobs, reordered) == Overlay(knobs, q)
  {
    forall e ensures e in reordered <==> e in q {
      assert e in reordered <==> e in multiset(reordered);
    }
    forall i: nat | i < |knobs| ensures Overlay(knobs, reordered)[i] == Overlay(knobs, q)[i] {
      OverlayAt(knobs, reordered, i);
      OverlayAt(knobs, q, i);
      if i in Indices(q) {
        LastValueIn(q, i);
      }
      if i in Indices(reordered) {
        LastValueIn(reordered, i);
        var e := Entry(i as int, LastValue(reordered, i));
        assert e in q;
      }
      assert i in Indices(reordered) <==> i in Indices(q);
    }
  }

  /** What the queue makes of one knob: the last value set for it since the last
      clear if it was among the first NLE_TUNE_MAX set, and its old value if not. */
  lemma QueuedValue<V>(catalog: nat, calls: seq<Call<V>>, knobs: seq<V>, i: nat)
    requires i < |knobs|
    ensures var log := Accepted(catalog, calls);
            && (AmongFirst(log, i) ==> i in Indices(log))
            && Overlay(knobs, Queue(catalog, calls))[i] == if AmongFirst(log, i) then LastValue(log, i) else knobs[i]
  {
    var q, log := Queue(catalog, calls), Accepted(catalog, calls);
    QueueRefinesLog(catalog, calls);
    OverlayAt(knobs, q, i);
    assert i in Indices(q) <==> AmongFirst(log, i);
    if i in Indices(q) {
      LastValueIn(q, i);
      var k :| 0 <= k < |q| && q[k] == Entry(i as int, LastValue(q, i));
    }
  }

  lemma {:induction false} AcceptedInCatalog<V>(catalog: nat, calls: seq<Call<V>>)
    ensures forall i | i in Indices(Accepted(catalog, calls)) :: 0 <= i < catalog
  {
    if calls != [] {
      var before := calls[..|calls| - 1];
      AcceptedInCatalog(catalog, before);
      if calls[|calls| - 1].SetTune? {
        IndicesSnoc(Accepted(catalog, before), Entry(calls[|calls| - 1].idx, calls[|calls| - 1].val));
      }
    }
  }

  lemma {:induction false} BoundedSize(s: set<int>, n: nat)
    requires forall i | i in s :: 0 <= i < n
    ensures |s| <= n
  {
    if n > 0 {
      BoundedSize(s - {n - 1}, n - 1);
      assert s <= (s - {n - 1}) + {n - 1};
      SubsetSize(s, (s - {n - 1}) + {n - 1});
    } else {
      assert forall i :: i !in s;
    }
  }

  /** While the log names few enough knobs, nothing was dropped. */
  lemma NothingDropped<V>(catalog: nat, calls: seq<Call<V>>, knobs: seq<V>)
    requires |Indices(Accepted(catalog, calls))| <= NLE_TUNE_MAX
    ensures Overlay(knobs, Queue(catalog, calls)) == Overlay(knobs, Accepted(catalog, calls))
  {
    var q, log := Queue(catalog, calls), Accepted(catalog, calls);
    QueueRefinesLog(catalog, calls);
    DistinctSize(q);
    assert Indices(q) == Indices(log) by {
      assert Indices(log) == Indices(q) + (Indices(log) - Indices(q));
    }
    forall i: nat | i < |knobs| ensures Overlay(knobs, q)[i] == Overlay(knobs, log)[i] {
      OverlayAt(knobs, q, i);
      OverlayAt(knobs, log, i);
      if i in Indices(q) {
        LastValueIn(q, i);
      }
    }
  }

  /** For a catalog no larger than the queue, starting a game with the queue, its
      entries taken in any order, is replaying every accepted call in call order. */
  lemma QueueReplaysLog<V>(catalog: nat, calls: seq<Call<V>>, knobs: seq<V>, reordered: seq<Entry<V>>)
    requires catalog <= NLE_TUNE_MAX
    requires multiset(reordered) == multiset(Queue(catalog, calls))
    ensures Overlay(knobs, reordered) == Overlay(knobs, Accepted(catalog, calls))
  {
    QueueRefinesLog(catalog, calls);
    OverlayAnyOrder(knobs, Queue(catalog, calls), reordered);
    AcceptedInCatalog(catalog, calls);
    BoundedSize(Indices(Accepted(catalog, calls)), catalog);
    NothingDropped(catalog, calls, knobs);
  }

  /** For a catalog of any size, the queue stands for the log exactly when at
      most NLE_TUNE_MAX distinct knobs were set since the last clear. */
  lemma QueueReplaysLogExactly<V>(catalog: nat, calls: seq<Call<V>>, a: V, b: V)
    requires a != b
    ensures (forall knobs: seq<V> | |knobs| == catalog ::
               Overlay(knobs, Queue(catalog, calls)) == Overlay(knobs, Accepted(catalog, calls)))
       <==> |Indices(Accepted(catalog, calls))| <= NLE_TUNE_MAX
  {
    var q, log := Queue(catalog, calls), Accepted(catalog, calls);
    if |Indices(log)| <= NLE_TUNE_MAX {
      forall knobs: seq<V> | |knobs| == catalog ensures Overlay(knobs, q) == Overlay(knobs, log) {
        NothingDropped(catalog, calls, knobs);
      }
    } else {
      QueueRefinesLog(catalog, calls);
      AcceptedInCatalog(catalog, calls);
      DistinctSize(q);
      assert exists i :: i in Indices(log) && i !in Indices(q) by {
        if Indices(log) <= Indices(q) {
          SubsetSize(Indices(log), Indices(q));
        }
      }
      var i :| i in Indices(log) && i !in Indices(q);
      var w := if LastValue(log, i) == a then b else a;
      var knobs := seq(catalog, _ => w);
      OverlayAt(knobs, q, i);
      OverlayAt(knobs, log, i);
      assert Overlay(knobs, q) != Overlay(knobs, log);
    }
  }
}
