// The hero's trail: a ring of recent positions, and the search a pursuing
// monster makes in it, which skips positions too old to be near.

module Track {

  const UTSZ: nat := 50

  datatype Coord = Coord(x: int, y: int)

  function Abs(d: int): nat { if d < 0 then -d else d }

  function DistMin(a: Coord, b: Coord): nat {
    var dx, dy := Abs(a.x - b.x), Abs(a.y - b.y);
    if dx < dy then dy else dx
  }

  /** The eight squares around `a`. */
  predicate Near(a: Coord, b: Coord) { a != b && -1 <= a.x - b.x <= 1 && -1 <= a.y - b.y <= 1 }

  /** The distance is how many steps to a neighbouring square it takes: none to where
      one is, one to the eight squares around; and from any farther off some
      neighbour is one step closer, and none is two. */
  lemma DistMinIsSteps(a: Coord, b: Coord)
    ensures DistMin(a, b) == 0 <==> a == b
    ensures DistMin(a, b) == 1 <==> Near(a, b)
    ensures forall c | Near(a, c) :: DistMin(c, b) + 1 >= DistMin(a, b)
    ensures a != b ==> exists c :: Near(a, c) && DistMin(c, b) + 1 == DistMin(a, b)
  {
    if a != b {
      var c := Coord(Toward(a.x, b.x), Toward(a.y, b.y));
      assert Near(a, c) && DistMin(c, b) + 1 == DistMin(a, b);
    }
  }

  function Toward(from: int, to: int): int { if from < to then from + 1 else if from > to then from - 1 else from }

  datatype Option<T> = None | Some(value: T)

  /** The search with skips, over the trail from the newest position back: at
      distance d > 2, the next d - 2 positions are not looked at. */
  function Chase(trail: seq<Coord>, k: nat, at: Coord): Option<nat>
    decreases |trail| - k
  {
    if k >= |trail| then None
    else
      var d := DistMin(at, trail[k]);
      if d > 2 then Chase(trail, k + d - 1, at)
      else if d <= 1 then if d == 1 then Some(k) else None
      else Chase(trail, k + 1, at)
  }

  /** The plain search: stop at the first position next to `at`, or at `at` itself. */
  function Scan(trail: seq<Coord>, k: nat, at: Coord): Option<nat>
    decreases |trail| - k
  {
    if k >= |trail| then None
    else
      var d := DistMin(at, trail[k]);
      if d <= 1 then if d == 1 then Some(k) else None
      else Scan(trail, k + 1, at)
  }

  /** The hero stayed or moved to a neighbouring square between recorded positions. */
  predicate Walked(trail: seq<Coord>) {
    forall k | 0 < k < |trail| :: trail[k - 1] == trail[k] || Near(trail[k - 1], trail[k])
  }

  /** It finds the newest position that is next to `at`, unless `at` itself is newer. */
  lemma {:induction false} ScanIsFirst(trail: seq<Coord>, k: nat, at: Coord, j: nat)
    ensures Scan(trail, k, at) == Some(j) <==>
              && k <= j < |trail| && Near(at, trail[j])
              && forall i | k <= i < j :: !Near(at, trail[i]) && trail[i] != at
    decreases |trail| - k
  {
    if k < |trail| {
      DistMinIsSteps(at, trail[k]);
      ScanIsFirst(trail, k + 1, at, j);
    }
  }

  lemma {:induction false} StaysAway(trail: seq<Coord>, k: nat, n: nat, at: Coord)
    requires Walked(trail) && k < |trail| && n <= DistMin(at, trail[k])
    ensures n + 2 <= DistMin(at, trail[k]) ==>
              Scan(trail, k, at) == Scan(trail, k + n, at)
    ensures k + n < |trail| ==> DistMin(at, trail[k + n]) >= DistMin(at, trail[k]) - n
    decreases n
  {
    if n > 0 {
      StaysAway(trail, k, n - 1, at);
      if k + n < |trail| {
        assert DistMin(trail[k + n - 1], trail[k + n]) <= 1;
      }
    }
  }

  /** On the trail of a hero who walked, skipping misses nothing. */
  lemma {:induction false} ChaseIsScan(trail: seq<Coord>, k: nat, at: Coord)
    requires Walked(trail)
    ensures Chase(trail, k, at) == Scan(trail, k, at)
    decreases |trail| - k
  {
    if k < |trail| {
      var d := DistMin(at, trail[k]);
      if d > 2 {
        StaysAway(trail, k, d - 2, at);
        ChaseIsScan(trail, k + d - 1, at);
        SkipLast(trail, k, d, at);
      } else if d == 2 {
        ChaseIsScan(trail, k + 1, at);
      }
    }
  }

  lemma SkipLast(trail: seq<Coord>, k: nat, d: nat, at: Coord)
    requires Walked(trail) && k < |trail| && d == DistMin(at, trail[k]) && d > 2
    ensures Scan(trail, k + d - 2, at) == Scan(trail, k + d - 1, at)
  {
    StaysAway(trail, k, d - 2, at);
  }

  /** The positions the search looks at, in order. */
  function Looked(trail: seq<Coord>, k: nat, at: Coord): seq<nat>
    decreases |trail| - k
  {
    if k >= |trail| then []
    else
      var d := DistMin(at, trail[k]);
      if d > 2 then [k] + Looked(trail, k + d - 1, at)
      else if d <= 1 then [k]
      else [k] + Looked(trail, k + 1, at)
  }

  lemma LookedStep(trail: seq<Coord>, k: nat, at: Coord) returns (next: nat)
    requires k < |trail| && DistMin(at, trail[k]) >= 2
    ensures k < next && Looked(trail, k, at) == [k] + Looked(trail, next, at) && Chase(trail, k, at) == Chase(trail, next, at)
  {
    var d := DistMin(at, trail[k]);
    next := if d > 2 then k + d - 1 else k + 1;
  }

  lemma {:induction false} PassedOne(trail: seq<Coord>, k: nat, at: Coord, i: nat)
    requires i < |Looked(trail, k, at)|
    ensures var j := Looked(trail, k, at)[i];
            k <= j < |trail| && (Near(at, trail[j]) ==> Chase(trail, k, at) == Some(j))
    decreases i
  {
    if i > 0 {
      var next := LookedStep(trail, k, at);
      assert Looked(trail, k, at)[i] == Looked(trail, next, at)[i - 1];
      PassedOne(trail, next, at, i - 1);
    }
  }

  lemma {:induction false} FoundLast(trail: seq<Coord>, k: nat, at: Coord)
    ensures var r, looked := Chase(trail, k, at), Looked(trail, k, at);
            r.Some? ==> k <= r.value < |trail| && Near(at, trail[r.value])
                        && looked != [] && looked[|looked| - 1] == r.value
    decreases |trail| - k
  {
    if k < |trail| && DistMin(at, trail[k]) >= 2 {
      var next := LookedStep(trail, k, at);
      FoundLast(trail, next, at);
    }
  }

  /** On any trail, what the search finds is a recorded position next to `at`, the
      last one it looks at; and no position it looks at before is next to `at`. */
  lemma ChaseSound(trail: seq<Coord>, k: nat, at: Coord)
    ensures var r, looked := Chase(trail, k, at), Looked(trail, k, at);
            && (r.Some? ==> k <= r.value < |trail| && Near(at, trail[r.value])
                            && looked != [] && looked[|looked| - 1] == r.value)
            && forall i | 0 <= i < |looked| :: k <= looked[i] < |trail| && (Near(at, trail[looked[i]]) ==> r == Some(looked[i]))
  {
    FoundLast(trail, k, at);
    forall i | 0 <= i < |Looked(trail, k, at)|
      ensures var j := Looked(trail, k, at)[i];
              k <= j < |trail| && (Near(at, trail[j]) ==> Chase(trail, k, at) == Some(j))
    {
      PassedOne(trail, k, at, i);
    }
  }

  /** The square next to `b` on the side away from `a`. */
  function Beyond(a: Coord, b: Coord): Coord {
    if Abs(b.x - a.x) >= Abs(b.y - a.y) then Coord(if b.x >= a.x then b.x + 1 else b.x - 1, b.y)
    else Coord(b.x, if b.y >= a.y then b.y + 1 else b.y - 1)
  }

  /** A jump is missed by a monster behind it: the trail passes right by, and the
      search goes past. */
  lemma JumpIsMissed(trail: seq<Coord>, k: nat)
    requires 0 < k < |trail| && trail[k - 1] != trail[k] && !Near(trail[k - 1], trail[k])
    ensures var at := Beyond(trail[k - 1], trail[k]);
            Scan(trail, k - 1, at) == Some(k) && Chase(trail, k - 1, at) != Some(k)
  {
    var at := Beyond(trail[k - 1], trail[k]);
    var d := DistMin(at, trail[k - 1]);
    assert DistMin(at, trail[k]) == 1 && d == DistMin(trail[k - 1], trail[k]) + 1;
    ChaseSound(trail, k - 1 + d - 1, at);
  }

  /** What is in the ring `k` moments ago, of all the positions ever recorded. */
  function RingAt(history: seq<Coord>, k: nat): seq<Coord>
    requires k <= |history|
  {
    history[k..if |history| < k + UTSZ then |history| else k + UTSZ]
  }

  /** The search was exact at every moment since the trail was begun, for every
      pursuer, exactly when the hero never moved more than one square between two
      recorded positions. */
  lemma ChaseExactlyWhenWalked(history: seq<Coord>)
    ensures (forall k: nat, at | k <= |history| :: Chase(RingAt(history, k), 0, at) == Scan(RingAt(history, k), 0, at))
            <==> Walked(history)
  {
    if Walked(history) {
      forall k: nat, at | k <= |history| ensures Chase(RingAt(history, k), 0, at) == Scan(RingAt(history, k), 0, at) {
        ChaseIsScan(RingAt(history, k), 0, at);
      }
    } else {
      var k: nat :| 0 < k < |history| && history[k - 1] != history[k] && !Near(history[k - 1], history[k]);
      var ring := RingAt(history, k - 1);
      assert ring[0] == history[k - 1] && ring[1] == history[k];
      JumpIsMissed(ring, 1);
      assert Chase(ring, 0, Beyond(ring[0], ring[1])) != Scan(ring, 0, Beyond(ring[0], ring[1]));
    }
  }

  lemma FoundNear(trail: seq<Coord>, at: Coord)
    ensures var r := Chase(trail, 0, at); r.Some? ==> r.value < |trail| && Near(at, trail[r.value])
  {
    FoundLast(trail, 0, at);
  }

  /** One position of the search. */
  lemma ChaseStep(trail: seq<Coord>, k: nat, at: Coord)
    requires k < |trail|
    ensures var d := DistMin(at, trail[k]);
            Chase(trail, k, at) == if d > 2 then Chase(trail, k + d - 1, at)
                                   else if d == 2 then Chase(trail, k + 1, at)
                                   else if d == 1 then Some(k) else None
  {
  }

  lemma ChaseEnds(trail: seq<Coord>, k: nat, at: Coord)
    requires k >= |trail|
    ensures Chase(trail, k, at) == None
  {
  }

  class HeroTrack {
    var utcnt: nat
    var utpnt: nat
    const utrack: array<Coord>
    ghost var history: seq<Coord> // every position recorded, newest first

    /** The positions in the ring, newest first. */
    ghost function Trail(): seq<Coord>
      reads this
    {
      RingAt(history, 0)
    }

    /** Where in the ring the k-th newest position is. */
    ghost function Slot(k: nat): int
      reads this
    {
      if utpnt - 1 - k >= 0 then utpnt - 1 - k else utpnt - 1 - k + UTSZ
    }

    ghost predicate Valid()
      reads this, utrack
    {
      && utrack.Length == UTSZ && utcnt <= UTSZ && utpnt <= UTSZ && |Trail()| == utcnt
      && (utcnt < UTSZ ==> utpnt == utcnt)
      && forall k | 0 <= k < utcnt :: 0 <= Slot(k) < UTSZ && utrack[Slot(k)] == Trail()[k]
    }

    constructor ()
      ensures Valid() && history == []
    {
      utrack := new Coord[UTSZ](_ => Coord(0, 0));
      utcnt, utpnt, history := 0, 0, [];
    }

    method InitTrack()
      requires Valid()
      modifies this
      ensures Valid() && history == []
    {
      utcnt, utpnt, history := 0, 0, [];
    }

    /** Record the hero's position; the ring keeps the last UTSZ. */
    method SetTrack(hero: Coord)
      requires Valid()
      modifies this, utrack
      ensures Valid() && history == [hero] + old(history)
    {
      if utcnt < UTSZ {
        utcnt := utcnt + 1;
      }
      if utpnt == UTSZ {
        utpnt := 0;
      }
      utrack[utpnt] := hero;
      utpnt := utpnt + 1;
      ghost var before := Trail();
      history := [hero] + history;
      assert Trail() == [hero] + before[..utcnt - 1];
    }

    lemma Sizes()
      requires Valid()
      ensures |Trail()| == utcnt <= UTSZ && utpnt <= UTSZ && utrack.Length == UTSZ > 0
    {
    }

    /** One step back in the ring is one position further back in the trail. */
    lemma OneBack(k: nat, tc: int)
      requires Valid() && k < utcnt && 0 <= tc <= UTSZ && (tc == utpnt - k || tc == utpnt - k + UTSZ)
      ensures var t := if tc == 0 then UTSZ - 1 else tc - 1;
              && 0 <= t < utrack.Length && utrack[t] == Trail()[k]
              && (t == utpnt - (k + 1) || t == utpnt - (k + 1) + UTSZ)
    {
      hide RingAt;
      assert (if tc == 0 then UTSZ - 1 else tc - 1) == Slot(k);
    }

    /** The search in the ring itself, by index. */
    method GetTrack(at: Coord) returns (found: bool, c: Coord)
      requires Valid()
      ensures var r := Chase(Trail(), 0, at);
              found == r.Some? && (found ==> r.value < |Trail()| && c == Trail()[r.value])
      ensures found ==> Near(at, c)
    {
      hide *;
      ghost var trail := Trail();
      Sizes();
      FoundNear(trail, at);
      ChaseEnds(trail, utcnt, at);
      found, c := false, at;
      var cnt, tc := utcnt, utpnt;
      while cnt > 0
        invariant 0 <= cnt <= utcnt && 0 <= tc <= UTSZ
        invariant tc == utpnt - (utcnt - cnt) || tc == utpnt - (utcnt - cnt) + UTSZ
        invariant Chase(trail, 0, at) == Chase(trail, utcnt - cnt, at)
      {
        ghost var k := utcnt - cnt;
        ChaseStep(trail, k, at);
        OneBack(k, tc);
        cnt := cnt - 1;
        if tc == 0 {
          tc := UTSZ - 1;
        } else {
          tc := tc - 1;
        }
        var ndist := DistMin(at, utrack[tc]);
        if ndist > 2 {
          ndist := ndist - 2;
          if cnt <= ndist {
            ChaseEnds(trail, k + ndist + 1, at);
            return;
          }
          cnt := cnt - ndist;
          if tc < ndist {
            tc := tc + (UTSZ - ndist);
          } else {
            tc := tc - ndist;
          }
        } else if ndist <= 1 {
          if ndist == 1 {
            found, c := true, utrack[tc];
          }
          return;
        }
      }
    }
  }
}
