// The bump arena that every heap allocation of one environment comes from.

module Arena {

  const ALIGN: nat := 16
  const UINT: nat := 0x1_0000_0000 // one more than the largest unsigned int

  const SIZE_T: nat := 0x1_0000_0000_0000_0000

  type UInt = n: nat | n < UINT

  function Min(a: nat, b: nat): (r: nat)
    ensures r <= a && r <= b && (r == a || r == b)
  {
    if a < b then a else b
  }

  /** How far a request of `lth` bytes moves the bump pointer. The rounding is
      done in unsigned int, where `lth + 15` can wrap around. */
  function Need(lth: UInt): (n: nat)
    ensures n >= ALIGN && n % ALIGN == 0
  {
    var rounded := (lth + ALIGN - 1) % UINT / ALIGN * ALIGN;
    if rounded == 0 then ALIGN else rounded
  }

  /** The block is as long as was asked for exactly when the rounding did not
      wrap; a longer request gets the smallest block there is. */
  lemma NeedSuffices(lth: UInt)
    ensures Need(lth) >= lth <==> lth <= UINT - ALIGN
    ensures lth <= UINT - ALIGN ==> Need(lth) < lth + ALIGN || (lth == 0 && Need(lth) == ALIGN)
    ensures lth > UINT - ALIGN ==> Need(lth) == ALIGN
  {
  }

  /** The product that a cleared allocation is of, taken in size_t, and what of it
      is asked for. */
  function Product(count: nat, size: nat): nat { count * size % SIZE_T }

  function Cut(bytes: nat): UInt { bytes % UINT }

  /** A cleared allocation gets a block that holds what was meant exactly if that is
      at most 2^32 - 16. */
  lemma CallocExact(count: nat, size: nat)
    ensures Need(Cut(Product(count, size))) >= count * size <==> count * size <= UINT - ALIGN
  {
    hide Need, Cut;
    BlockExact(count * size);
  }

  lemma BlockExact(request: nat)
    ensures Need(Cut(request % SIZE_T)) >= request <==> request <= UINT - ALIGN
  {
    hide Need;
    NeedBounded(Cut(request % SIZE_T));
    if request <= UINT - ALIGN {
      NeedSuffices(request);
    }
  }

  lemma ProductFits(count: nat, size: nat)
    ensures Product(count, size) <= count * size
  {
  }

  lemma NeedBounded(lth: UInt)
    ensures Need(lth) <= UINT - ALIGN
  {
  }

  /** 4 GiB are asked for, and get the smallest block. */
  lemma CallocOverruns()
    ensures Product(1, UINT) == UINT && Bump(0, ALIGN, Cut(UINT)) == Block(0) && Need(Cut(UINT)) == ALIGN
  {
  }

  datatype Outcome = Block(offset: nat) | OutOfMemory

  function Bump(used: nat, cap: nat, lth: UInt): Outcome {
    if used + Need(lth) > cap then OutOfMemory else Block(used)
  }

  function UsedAfter(used: nat, cap: nat, lth: UInt): nat {
    if Bump(used, cap, lth).Block? then used + Need(lth) else used
  }

  /** A request is answered exactly if some whole number of alignment units fits that
      holds it (or, if it was cut by the wrap-around, if one unit fits); the block is
      where the bump pointer was, and the pointer moves by the least such number. */
  lemma BumpExact(used: nat, cap: nat, lth: UInt)
    ensures Bump(used, cap, lth) == Block(used) <==> exists n: nat :: Holds(n, lth) && used + n <= cap
    ensures Bump(used, cap, lth) != Block(used) <==> Bump(used, cap, lth) == OutOfMemory
    ensures Bump(used, cap, lth).Block? ==> Holds(UsedAfter(used, cap, lth) - used, lth)
    ensures forall n: nat | Holds(n, lth) && used + n <= cap :: UsedAfter(used, cap, lth) <= used + n
    ensures Bump(used, cap, lth).OutOfMemory? ==> UsedAfter(used, cap, lth) == used
  {
    NeedSuffices(lth);
    assert Holds(Need(lth), lth);
    forall n: nat | Holds(n, lth) ensures Need(lth) <= n {
      LeastUnits(n, lth);
    }
  }

  predicate Holds(n: int, lth: UInt) { n > 0 && n % ALIGN == 0 && (lth <= UINT - ALIGN ==> n >= lth) }

  lemma LeastUnits(n: nat, lth: UInt)
    requires Holds(n, lth)
    ensures Need(lth) <= n
  {
    NeedSuffices(lth);
    var a, b := n / ALIGN, Need(lth) / ALIGN;
    assert n == ALIGN * a && Need(lth) == ALIGN * b;
    assert ALIGN * b < ALIGN * (a + 1);
  }

  // ---- whole runs of requests ----

  function UsedAfterAll(used: nat, cap: nat, requests: seq<UInt>): nat {
    if requests == [] then used
    else UsedAfter(UsedAfterAll(used, cap, requests[..|requests| - 1]), cap, requests[|requests| - 1])
  }

  /** What the k-th of a run of requests is answered with. */
  function Answer(used: nat, cap: nat, requests: seq<UInt>, k: nat): Outcome
    requires k < |requests|
  {
    Bump(UsedAfterAll(used, cap, requests[..k]), cap, requests[k])
  }

  lemma {:induction false} UsedGrows(used: nat, cap: nat, requests: seq<UInt>, k: nat)
    requires k <= |requests| && used <= cap
    ensures used <= UsedAfterAll(used, cap, requests[..k]) <= UsedAfterAll(used, cap, requests) <= cap
    decreases |requests|
  {
    hide Need;
    if k == |requests| {
      assert requests[..k] == requests;
      if k > 0 {
        UsedGrows(used, cap, requests[..k - 1], k - 1);
        assert requests[..k - 1][..k - 1] == requests[..k - 1];
      }
    } else {
      var front := requests[..|requests| - 1];
      assert front[..k] == requests[..k];
      UsedGrows(used, cap, front, k);
    }
  }

  lemma {:induction false} UsedAligned(used: nat, cap: nat, requests: seq<UInt>)
    requires used % ALIGN == 0
    ensures UsedAfterAll(used, cap, requests) % ALIGN == 0
    decreases |requests|
  {
    hide Need;
    if requests != [] {
      UsedAligned(used, cap, requests[..|requests| - 1]);
    }
  }

  /** Over any run of requests, of any length, the blocks handed out for two that
      were not cut by the wrap-around are aligned, lie within the part of the arena
      in use, are long enough, and do not overlap: freeing is a no-op, so no byte
      is handed out twice. */
  lemma BlocksDisjoint(used: nat, cap: nat, requests: seq<UInt>, j: nat, k: nat)
    requires used <= cap && used % ALIGN == 0
    requires j < k < |requests|
    requires requests[j] <= UINT - ALIGN && requests[k] <= UINT - ALIGN
    requires Answer(used, cap, requests, j).Block? && Answer(used, cap, requests, k).Block?
    ensures var a, b := Answer(used, cap, requests, j).offset, Answer(used, cap, requests, k).offset;
            && a % ALIGN == 0 && b % ALIGN == 0
            && used <= a && a + requests[j] <= b
            && b + requests[k] <= UsedAfterAll(used, cap, requests) <= cap
  {
    AnswerIsBetween(used, cap, requests, j);
    AnswerIsBetween(used, cap, requests, k);
    UsedGrows(used, cap, requests[..k], j + 1);
    assert requests[..k][..j + 1] == requests[..j + 1];
  }

  /** Nothing is wasted but the rounding: a block begins less than one unit behind
      the end of the one before it, or at it. */
  lemma BlocksAdjacent(used: nat, cap: nat, requests: seq<UInt>, k: nat)
    requires k + 1 < |requests| && 0 < requests[k] <= UINT - ALIGN
    requires Answer(used, cap, requests, k).Block? && Answer(used, cap, requests, k + 1).Block?
    ensures var end := Answer(used, cap, requests, k).offset + requests[k];
            end <= Answer(used, cap, requests, k + 1).offset < end + ALIGN
  {
    assert requests[..k + 1][..k] == requests[..k];
    NeedSuffices(requests[k]);
  }

  lemma AnswerIsBetween(used: nat, cap: nat, requests: seq<UInt>, k: nat)
    requires used <= cap && used % ALIGN == 0
    requires k < |requests| && requests[k] <= UINT - ALIGN && Answer(used, cap, requests, k).Block?
    ensures var a := Answer(used, cap, requests, k).offset;
            && a % ALIGN == 0
            && used <= a == UsedAfterAll(used, cap, requests[..k])
            && a + requests[k] <= UsedAfterAll(used, cap, requests[..k + 1]) <= UsedAfterAll(used, cap, requests) <= cap
  {
    UsedAligned(used, cap, requests[..k]);
    UsedGrows(used, cap, requests[..k], 0);
    UsedGrows(used, cap, requests, k + 1);
    assert requests[..k][..0] == [];
    assert requests[..k + 1][..k] == requests[..k];
    NeedSuffices(requests[k]);
  }

  // ---- the code ----

  /** What a snapshot keeps of the arena: the bytes in use. */
  datatype Saved = Saved(used: nat, bytes: seq<int>)

  /** The arena fields of one environment's context. */
  class Ctx {
    const arenaCap: nat
    var arenaBase: array?<int>
    var arenaUsed: nat

    ghost predicate Valid()
      reads this
    {
      && (arenaBase == null ==> arenaUsed == 0)
      && (arenaBase != null ==> arenaBase.Length == arenaCap)
      && arenaUsed <= arenaCap
    }

    /** The arena's contents. An arena not yet mapped is all zeros, as it will be
        when it is mapped, so when that happens cannot be observed. */
    ghost function Heap(): (h: seq<int>)
      requires Valid()
      reads this, arenaBase
      ensures |h| == arenaCap
    {
      if arenaBase == null then seq(arenaCap, _ => 0) else arenaBase[..]
    }

    constructor (cap: nat)
      ensures Valid() && arenaCap == cap && arenaUsed == 0 && Heap() == seq(cap, _ => 0)
    {
      arenaCap := cap;
      arenaBase := null;
      arenaUsed := 0;
    }

    /** Map the arena, zero-filled, on the first allocation. */
    method MapArena()
      requires Valid()
      modifies `arenaBase
      ensures Valid() && arenaBase != null && Heap() == old(Heap())
      ensures old(arenaBase) != null ==> arenaBase == old(arenaBase)
      ensures old(arenaBase) == null ==> fresh(arenaBase)
    {
      if arenaBase == null {
        arenaBase := new int[arenaCap](_ => 0);
        assert arenaBase[..] == seq(arenaCap, _ => 0);
      }
    }

    method Alloc(lth: UInt) returns (r: Outcome)
      requires Valid()
      modifies this
      ensures Valid() && r == Bump(old(arenaUsed), arenaCap, lth)
      ensures arenaUsed == UsedAfter(old(arenaUsed), arenaCap, lth)
      ensures Heap() == old(Heap()) && arenaBase != null
      ensures if old(arenaBase) == null then fresh(arenaBase) else arenaBase == old(arenaBase)
    {
      MapArena();
      var need := Need(lth);
      var offset := arenaUsed;
      if offset + need > arenaCap {
        return OutOfMemory;
      }
      arenaUsed := offset + need;
      return Block(offset);
    }

    /** memset of `n` bytes to zero. */
    method Clear(offset: nat, n: nat)
      requires Valid() && arenaBase != null && offset + n <= arenaCap
      modifies arenaBase
      ensures Heap() == Zeroed(old(Heap()), offset, n)
    {
      var i := 0;
      while i < n
        invariant i <= n
        invariant forall j | 0 <= j < arenaCap ::
                    arenaBase[j] == if offset <= j < offset + i then 0 else old(arenaBase[j])
      {
        arenaBase[offset + i] := 0;
        i := i + 1;
      }
    }

    /** Allocate and clear `count * size` bytes, the product taken in size_t. The
        request is cut to an unsigned int but the clearing is not: it may go on past
        the block, and past the arena's end, `beyond` bytes far. */
    method Calloc(count: nat, size: nat) returns (r: Outcome, beyond: nat)
      requires Valid()
      modifies this, arenaBase
      ensures Valid() && r == Bump(old(arenaUsed), arenaCap, Cut(Product(count, size)))
      ensures arenaUsed == UsedAfter(old(arenaUsed), arenaCap, Cut(Product(count, size)))
      ensures r.OutOfMemory? ==> Heap() == old(Heap())
      ensures r.Block? ==> r.offset <= arenaCap
      ensures r.Block? ==> Heap() == Zeroed(old(Heap()), r.offset, Min(Product(count, size), arenaCap - r.offset))
      ensures beyond == if r.Block? then Product(count, size) - Min(Product(count, size), arenaCap - r.offset) else 0
      ensures r.Block? && count * size <= UINT - ALIGN ==> r.offset + Product(count, size) <= arenaUsed && beyond == 0
    {
      hide Need, Product, Cut;
      var bytes := Product(count, size);
      beyond := 0;
      r := Alloc(Cut(bytes));
      if r.Block? {
        CallocExact(count, size);
        ProductFits(count, size);
        Clear(r.offset, Min(bytes, arenaCap - r.offset));
        beyond := bytes - Min(bytes, arenaCap - r.offset);
      }
    }

    method Save() returns (s: Saved)
      requires Valid()
      ensures s == Saved(arenaUsed, Heap()[..arenaUsed])
    {
      if arenaBase != null && arenaUsed > 0 {
        s := Saved(arenaUsed, arenaBase[..arenaUsed]);
      } else {
        s := Saved(arenaUsed, []);
      }
    }

    /** Put the saved bytes back and rewind the bump pointer. The mapping stays,
        and so do the bytes beyond the rewound pointer. */
    method Restore(s: Saved)
      requires Valid()
      requires |s.bytes| == s.used <= arenaCap
      requires arenaBase == null ==> s.used == 0
      modifies `arenaUsed, arenaBase
      ensures Valid() && arenaUsed == s.used && arenaBase == old(arenaBase)
      ensures Heap() == s.bytes + old(Heap())[s.used..]
    {
      if s.used > 0 && arenaBase != null {
        var i := 0;
        while i < s.used
          modifies arenaBase
          invariant i <= s.used
          invariant forall j | 0 <= j < arenaCap ::
                      arenaBase[j] == if j < i then s.bytes[j] else old(arenaBase[j])
        {
          arenaBase[i] := s.bytes[i];
          i := i + 1;
        }
      }
      arenaUsed := s.used;
    }
  }

  function Zeroed(heap: seq<int>, offset: nat, n: nat): (h: seq<int>)
    requires offset + n <= |heap|
    ensures |h| == |heap|
    ensures forall i | 0 <= i < |h| :: h[i] == if offset <= i < offset + n then 0 else heap[i]
  {
    heap[..offset] + seq(n, _ => 0) + heap[offset + n..]
  }
}
