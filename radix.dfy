/**
 * Mixed-radix index arithmetic behind the flat buffers of src/volume.c.
 *
 * Both the grid (data[(level * Nc + col) * Nr + row]) and the slice buffers
 * (index[(slice * rows + row) * cols + col]) store a 3-D box in one flat
 * array. Compose builds such a flat index from three digits; the lemmas say
 * it stays inside the box and that division and remainder take it apart again.
 */
module Radix {

  /** The flat index of digit triple (a, b, c) in a box whose two inner extents are B and C. */
  function Compose(a: int, b: int, c: int, B: int, C: int): int
  {
    (a * B + b) * C + c
  }

  /** Multiplication by a non-negative factor keeps order. */
  lemma MulMono(a: int, b: int, d: int)
    requires a <= b && 0 <= d
    ensures a * d <= b * d
  {
  }

  /** Euclidean division has unique quotient and remainder. */
  lemma {:induction false} DivModUnique(x: int, d: int, q: int, r: int)
    requires 0 < d && 0 <= r < d && x == q * d + r
    ensures x / d == q && x % d == r
  {
    var q', r' := x / d, x % d;
    assert x == q' * d + r';
    if q' < q {
      MulMono(q' + 1, q, d);
      assert false;
    } else if q < q' {
      MulMono(q + 1, q', d);
      assert false;
    }
  }

  /** A composed index lies inside the box A x B x C. */
  lemma ComposeBounds(a: int, b: int, c: int, A: int, B: int, C: int)
    requires 0 <= a < A && 0 <= b < B && 0 <= c < C
    ensures 0 <= Compose(a, b, c, B, C) < A * B * C
  {
    MulMono(0, a, B);
    MulMono(a, A - 1, B);
    assert 0 <= a * B + b < A * B;
    MulMono(0, a * B + b, C);
    MulMono(a * B + b, A * B - 1, C);
    assert (A * B - 1) * C == A * B * C - C;
  }

  /** Division and remainder recover the digits of a composed index. */
  lemma ComposeDecompose(a: int, b: int, c: int, B: int, C: int)
    requires 0 <= a && 0 <= b < B && 0 <= c < C
    ensures Compose(a, b, c, B, C) / (B * C) == a
    ensures (Compose(a, b, c, B, C) / C) / B == a
    ensures (Compose(a, b, c, B, C) / C) % B == b
    ensures Compose(a, b, c, B, C) % C == c
  {
    var x := Compose(a, b, c, B, C);
    DivModUnique(x, C, a * B + b, c);
    DivModUnique(a * B + b, B, a, b);
    MulMono(b, B - 1, C);
    assert (B - 1) * C == B * C - C;
    assert x == a * (B * C) + (b * C + c);
    DivModUnique(x, B * C, a, b * C + c);
  }

  /** Every index of the box is the composition of its own digits. */
  lemma DecomposeCompose(x: int, A: int, B: int, C: int)
    requires 0 < B && 0 < C && 0 <= x < A * B * C
    ensures 0 <= x / (B * C) < A && 0 <= (x / C) % B < B && 0 <= x % C < C
    ensures x == Compose(x / (B * C), (x / C) % B, x % C, B, C)
  {
    var q, c := x / C, x % C;
    assert x == q * C + c;
    assert 0 <= q by {
      if q < 0 {
        MulMono(q, -1, C);
        assert false;
      }
    }
    var a, b := q / B, q % B;
    assert q == a * B + b;
    assert x == Compose(a, b, c, B, C);
    ComposeDecompose(a, b, c, B, C);
    if A <= a {
      MulMono(A, a, B);
      assert A * B <= q;
      MulMono(A * B, q, C);
      assert false;
    }
  }

  /** Finishing a row of C columns is starting the next row. */
  lemma RowCarry(a: int, b: int, B: int, C: int)
    ensures Compose(a, b, C, B, C) == Compose(a, b + 1, 0, B, C)
  {
  }

  /** Finishing the B rows of a slice is starting the next slice. */
  lemma SliceCarry(a: int, B: int, C: int)
    ensures Compose(a, B, 0, B, C) == Compose(a + 1, 0, 0, B, C)
  {
  }
}
