/**
 * The multi-volume slice interleaver of draw_volume (src/volume.c).
 *
 * Every volume variable is drawn with the same number of slices, the
 * largest count L (largestslice). Round g of the list draws, for each
 * variable k in turn, the local slice of k that sits at the same fraction
 * of its own count n_k: g * (n_k - 1) / (L - 1), truncated and clamped to
 * n_k - 1. Entry g * V + k of the list (V variables) is that pair
 * (local slice, k); the list has V * L entries.
 */
module Interleave {
  import opened Radix
  import opened Slicing

  /** The divisor the source scales by: largestslice - 1. */
  function Divisor(L: int): int
  {
    L - 1
  }

  /**
   * The local slice of round g for a variable with n slices, as the source
   * computes it. Defined only where the division is: the numerator is never
   * negative there, so truncating and Euclidean division agree.
   */
  function LocalSliceAsWritten(g: int, n: int, L: int): (t: int)
    requires 0 <= g && 1 <= n && Divisor(L) > 0
    ensures 0 <= t <= n - 1
  {
    var q := g * (n - 1) / Divisor(L);
    if q > n - 1 then n - 1 else q
  }

  /**
   * The local slice of round g: the source's scaling, and slice 0 when the
   * largest count is 1 (every variable then has exactly one slice).
   */
  function LocalSlice(g: int, n: int, L: int): (t: int)
    requires 0 <= g && 1 <= n
    ensures 0 <= t < n
    ensures 2 <= L ==> t == LocalSliceAsWritten(g, n, L)
  {
    if L <= 1 then 0 else LocalSliceAsWritten(g, n, L)
  }

  /**
   * The source divides by zero whenever largestslice is 1: for example one
   * volume variable with a single level, viewed straight along z on the
   * variables' own grid (nr = nc = 4, nl = 4 display levels), gets one
   * slice. Whether draw_volume can be handed such a variable is open:
   * alloc_volume refuses grids of at most one level and draw_volume returns
   * before slicing when no slot is drawable, but slot memory can also be
   * renewed elsewhere (renew_volume_memory is not part of this model).
   */
  lemma SingleSliceDividesByZero()
    ensures var a := SliceAxis(View(0.0, 0.0, 1.0));
      var counts := [SliceCount(a, 4, 4, 4, true, 1)];
      a == ZAxis && counts == [1] && MaxCount(counts) == 1 && Divisor(MaxCount(counts)) == 0
  {
    assert MaxCount([1]) == 1 by {
      assert [1][..0] == [];
    }
  }

  /** Division by a positive divisor keeps order. */
  lemma {:induction false} DivMono(a: int, b: int, d: int)
    requires 0 <= a <= b && 0 < d
    ensures a / d <= b / d
  {
    var qa, ra := a / d, a % d;
    var qb, rb := b / d, b % d;
    if qb < qa {
      MulMono(qb + 1, qa, d);
      assert false;
    }
  }

  /** Later rounds never go back to an earlier local slice. */
  lemma {:induction false} LocalSliceMonotone(g1: int, g2: int, n: int, L: int)
    requires 0 <= g1 <= g2 && 1 <= n
    ensures LocalSlice(g1, n, L) <= LocalSlice(g2, n, L)
  {
    if 2 <= L {
      MulMono(g1, g2, n - 1);
      DivMono(g1 * (n - 1), g2 * (n - 1), L - 1);
    }
  }

  /** The first round draws slice 0 and the last round draws slice n - 1. */
  lemma {:induction false} LocalSliceEnds(n: int, L: int)
    requires 1 <= n && 1 <= L && n <= L
    ensures LocalSlice(0, n, L) == 0
    ensures LocalSlice(L - 1, n, L) == n - 1
  {
    if 2 <= L {
      DivModUnique((L - 1) * (n - 1), L - 1, n - 1, 0);
    }
  }

  /**
   * Over the rounds g < L the clamp to n - 1 never fires: the scaled value
   * is already at most n - 1.
   */
  lemma {:induction false} ClampIsIdle(g: int, n: int, L: int)
    requires 0 <= g < L && 2 <= L && 1 <= n
    ensures g * (n - 1) / Divisor(L) <= n - 1
  {
    MulMono(g, L - 1, n - 1);
    DivMono(g * (n - 1), (L - 1) * (n - 1), L - 1);
    DivModUnique((L - 1) * (n - 1), L - 1, n - 1, 0);
  }

  /** With n <= L consecutive rounds advance by at most one slice. */
  lemma {:induction false} LocalSliceStep(g: int, n: int, L: int)
    requires 0 <= g && 1 <= n <= L
    ensures LocalSlice(g + 1, n, L) <= LocalSlice(g, n, L) + 1
  {
    if 2 <= L {
      var D := L - 1;
      var a := g * (n - 1);
      var q, r := a / D, a % D;
      assert (g + 1) * (n - 1) == a + (n - 1);
      assert a + (n - 1) <= q * D + r + D;
      assert r + (n - 1) < 2 * D;
      DivMono(a + (n - 1), (q + 2) * D - 1, D);
      DivModUnique((q + 2) * D - 1, D, q + 1, D - 1);
    }
  }

  /** With n <= L every local slice 0 .. n - 1 is drawn in some round g < L. */
  lemma {:induction false} EverySliceDrawn(t: int, n: int, L: int)
    requires 1 <= n <= L && 0 <= t < n
    ensures exists g :: 0 <= g < L && LocalSlice(g, n, L) == t
  {
    LocalSliceEnds(n, L);
    var g := Reach(t, n, L, L - 1);
  }

  /**
   * Searching down from round hi, whose slice is at least t, finds a round
   * whose slice is exactly t.
   */
  lemma {:induction false} Reach(t: int, n: int, L: int, hi: int) returns (g: int)
    requires 1 <= n <= L && 0 <= t < n && 0 <= hi < L && t <= LocalSlice(hi, n, L)
    requires LocalSlice(0, n, L) == 0
    ensures 0 <= g <= hi && LocalSlice(g, n, L) == t
    decreases hi
  {
    if LocalSlice(hi, n, L) == t {
      g := hi;
    } else {
      LocalSliceStep(hi - 1, n, L);
      g := Reach(t, n, L, hi - 1);
    }
  }

  /** Four slices spread over eight rounds: slices 0, 0, 0, 1, 1, 2, 2, 3. */
  lemma FourIntoEight()
    ensures seq(8, g requires 0 <= g => LocalSlice(g, 4, 8)) == [0, 0, 0, 1, 1, 2, 2, 3]
  {
  }

  /**
   * The first n entries of the list: entry e is (local slice of round e / V
   * for variable e % V, variable e % V).
   */
  ghost predicate Listed(local: array<int>, owner: array<int>, counts: seq<int>, L: int, n: int)
    reads local, owner
  {
    1 <= |counts| && (forall k :: 0 <= k < |counts| ==> 1 <= counts[k]) &&
    0 <= n <= local.Length && n <= owner.Length &&
    forall e :: 0 <= e < n ==>
      owner[e] == e % |counts| && local[e] == LocalSlice(e / |counts|, counts[e % |counts|], L)
  }

  /**
   * totalslices: for every round g < L and every variable k, in that
   * nesting, store the pair at running position slicenew.
   */
  method BuildSliceList(counts: seq<int>, L: int) returns (local: array<int>, owner: array<int>)
    requires 1 <= |counts| && 0 <= L
    requires forall k :: 0 <= k < |counts| ==> 1 <= counts[k]
    ensures fresh(local) && fresh(owner)
    ensures local.Length == |counts| * L && owner.Length == |counts| * L
    ensures Listed(local, owner, counts, L, |counts| * L)
  {
    var V := |counts|;
    local := new int[V * L];
    owner := new int[V * L];
    var slicenew := 0;
    var g := 0;
    while g < L
      invariant 0 <= g <= L && slicenew == g * V
      invariant Listed(local, owner, counts, L, slicenew)
    {
      MulMono(g + 1, L, V);
      assert (g + 1) * V == slicenew + V && L * V == local.Length;
      ListRound(local, owner, counts, L, g, slicenew);
      slicenew := slicenew + V;
      g := g + 1;
    }
    assert slicenew == V * L;
  }

  /** One round g: the entries g * V .. g * V + V - 1, one per variable. */
  method ListRound(local: array<int>, owner: array<int>, counts: seq<int>, L: int, g: int, start: int)
    requires local != owner && 0 <= g && start == g * |counts| && start + |counts| <= local.Length
    requires start + |counts| <= owner.Length
    requires Listed(local, owner, counts, L, start)
    modifies local, owner
    ensures Listed(local, owner, counts, L, start + |counts|)
  {
    var V := |counts|;
    var slicenew := start;
    var k := 0;
    while k < V
      invariant 0 <= k <= V && slicenew == start + k
      invariant Listed(local, owner, counts, L, slicenew)
    {
      DivModUnique(slicenew, V, g, k);
      local[slicenew] := LocalSlice(g, counts[k], L);
      owner[slicenew] := k;
      slicenew := slicenew + 1;
      k := k + 1;
    }
  }
}
