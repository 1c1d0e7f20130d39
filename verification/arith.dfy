/**
 Integer arithmetic shared by the terrain and scatter renderers: ceiling
 division (what `Mathf.CeilToInt(a / (float)b)` computes while the operands stay
 small enough for the float quotient to be exact) and the row-major cell index
 `x + z * w` both components use to lay out a grid in a flat array.
 */
module Arith {

  /** Ceiling of a / b: the least r with r * b >= a. */
  function CeilDiv(a: nat, b: int): (r: nat)
    requires b > 0
    ensures r * b >= a
    ensures (r - 1) * b < a
  {
    var n := a + b - 1;
    assert n == (n / b) * b + n % b;
    n / b
  }

  lemma MulMono(a: int, b: int, c: nat)
    requires a <= b
    ensures a * c <= b * c
  {
    assert b * c - a * c == (b - a) * c;
  }

  /** Any r covering a in steps of b is at least the ceiling. */
  lemma CeilDivLeast(a: nat, b: int, k: int)
    requires b > 0
    requires k * b >= a
    ensures CeilDiv(a, b) <= k
  {
    var r := CeilDiv(a, b);
    if r - 1 >= k {
      MulMono(k, r - 1, b);
    }
  }

  /** The two defining inequalities pin down the ceiling. */
  lemma CeilDivUnique(a: nat, b: int, r: int)
    requires b > 0
    requires r * b >= a
    requires (r - 1) * b < a
    ensures r == CeilDiv(a, b)
  {
    CeilDivLeast(a, b, r);
    var c := CeilDiv(a, b);
    if c < r {
      MulMono(c, r - 1, b);
    }
  }

  /** Euclidean division is determined by quotient and remainder. */
  lemma DivModUnique(n: int, d: int, q: int, r: int)
    requires d > 0
    requires 0 <= r < d
    requires n == q * d + r
    ensures n / d == q
    ensures n % d == r
  {
    var q' := n / d;
    var r' := n % d;
    assert n == q' * d + r';
    assert (q - q') * d == r' - r;
    if q' < q {
      MulMono(1, q - q', d);
    } else if q < q' {
      MulMono(1, q' - q, d);
    }
  }

  /** Flat index of cell (x, z) in a grid that is w cells wide. */
  function Cell(w: nat, x: nat, z: nat): nat
  {
    x + z * w
  }

  /** Row-major flattening can be undone: column by remainder, row by quotient. */
  lemma CellDecode(w: nat, x: nat, z: nat)
    requires x < w
    ensures Cell(w, x, z) % w == x
    ensures Cell(w, x, z) / w == z
  {
    DivModUnique(Cell(w, x, z), w, z, x);
  }

  /** Every cell of a w-by-h grid lands inside a buffer of w * h entries. */
  lemma CellInGrid(w: nat, h: nat, x: nat, z: nat)
    requires x < w && z < h
    ensures Cell(w, x, z) < w * h
  {
    MulMono(z, h - 1, w);
    assert (h - 1) * w == w * h - w;
  }

  /** Two cells of a grid with the same flat index are the same cell. */
  lemma CellInjective(w: nat, x: nat, z: nat, x': nat, z': nat)
    requires x < w && x' < w
    requires Cell(w, x, z) == Cell(w, x', z')
    ensures x == x' && z == z'
  {
    CellDecode(w, x, z);
    CellDecode(w, x', z');
  }

  /** Every flat index below w * h is the cell (k % w, k / w) of the grid. */
  lemma CellEncode(w: nat, h: nat, k: nat)
    requires k < w * h
    ensures w > 0
    ensures k % w < w && k / w < h
    ensures Cell(w, k % w, k / w) == k
  {
    assert k == (k / w) * w + k % w;
    if k / w >= h {
      MulMono(h, k / w, w);
    }
  }
}
