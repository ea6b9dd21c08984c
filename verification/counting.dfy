/**
  Finite sums over index ranges and over the cells of a container. They are
  what lets the model speak of "the number of occupied cells" and of "the
  number of cells a box covers", so that the used-volume counter of the
  branch-and-bound search can be related to the grid it summarises.
 */
module Counting {
  import opened Packing

  /** f(0) + f(1) + ... + f(n - 1). */
  function Sum(n: nat, f: nat -> int): int
  {
    if n == 0 then 0 else Sum(n - 1, f) + f(n - 1)
  }

  lemma {:induction false} SumAdd(n: nat, f: nat -> int, g: nat -> int, h: nat -> int)
    requires forall i: nat :: i < n ==> f(i) == g(i) + h(i)
    ensures Sum(n, f) == Sum(n, g) + Sum(n, h)
  {
    if n > 0 {
      SumAdd(n - 1, f, g, h);
    }
  }

  /** A sum of n terms, each between 0 and m, lies between 0 and n * m, and reaches n * m only when every term is m. */
  lemma {:induction false} SumRange(n: nat, f: nat -> int, m: int)
    requires m >= 0
    requires forall i: nat :: i < n ==> 0 <= f(i) <= m
    ensures 0 <= Sum(n, f) <= n * m
    ensures Sum(n, f) == n * m ==> forall i: nat :: i < n ==> f(i) == m
  {
    if n > 0 {
      SumRange(n - 1, f, m);
      assert n * m == (n - 1) * m + m;
    }
  }

  /** Number of positions below n that fall in the window [lo, lo + len). */
  function Clamp(n: nat, lo: nat, len: nat): nat {
    if n <= lo then 0 else if n <= lo + len then n - lo else len
  }

  lemma {:induction false} SumWindowPrefix(n: nat, f: nat -> int, lo: nat, len: nat, m: int)
    requires forall i: nat :: i < n ==> f(i) == (if lo <= i < lo + len then m else 0)
    ensures Sum(n, f) == Clamp(n, lo, len) * m
  {
    if n > 0 {
      SumWindowPrefix(n - 1, f, lo, len, m);
      if n <= lo {
      } else if n <= lo + len {
        assert Clamp(n, lo, len) * m == Clamp(n - 1, lo, len) * m + m;
      } else {
      }
    }
  }

  /** Summing m over a window of len positions inside [0, n) gives len * m. */
  lemma SumWindow(n: nat, f: nat -> int, lo: nat, len: nat, m: int)
    requires lo + len <= n
    requires forall i: nat :: i < n ==> f(i) == (if lo <= i < lo + len then m else 0)
    ensures Sum(n, f) == len * m
  {
    SumWindowPrefix(n, f, lo, len, m);
  }

  // ---------------------------------------------------------------------------
  // Sums over the cells of a container, nested x (outer), y, z (inner)

  function Column(p: Cell -> int, x: nat, y: nat): nat -> int {
    (z: nat) => p(Cell(x, y, z))
  }

  function Rows(lim: Limit, p: Cell -> int, x: nat): nat -> int {
    (y: nat) => Sum(lim.z, Column(p, x, y))
  }

  function Planes(lim: Limit, p: Cell -> int): nat -> int {
    (x: nat) => Sum(lim.y, Rows(lim, p, x))
  }

  /** Sum of p over every cell of the container. */
  function Total(lim: Limit, p: Cell -> int): int {
    Sum(lim.x, Planes(lim, p))
  }

  /** Summing cell by cell commutes with adding the summands. */
  lemma TotalAdd(lim: Limit, p: Cell -> int, q: Cell -> int, r: Cell -> int)
    requires forall c :: InContainer(lim, c) ==> p(c) == q(c) + r(c)
    ensures Total(lim, p) == Total(lim, q) + Total(lim, r)
  {
    forall x: nat, y: nat | x < lim.x && y < lim.y
      ensures Rows(lim, p, x)(y) == Rows(lim, q, x)(y) + Rows(lim, r, x)(y)
    {
      forall z: nat | z < lim.z
        ensures Column(p, x, y)(z) == Column(q, x, y)(z) + Column(r, x, y)(z)
      {
        assert InContainer(lim, Cell(x, y, z));
      }
      SumAdd(lim.z, Column(p, x, y), Column(q, x, y), Column(r, x, y));
    }
    forall x: nat | x < lim.x
      ensures Planes(lim, p)(x) == Planes(lim, q)(x) + Planes(lim, r)(x)
    {
      SumAdd(lim.y, Rows(lim, p, x), Rows(lim, q, x), Rows(lim, r, x));
    }
    SumAdd(lim.x, Planes(lim, p), Planes(lim, q), Planes(lim, r));
  }

  /** A row (fixed x, y) of a 0/1 indicator sums to at most lim.z, and to lim.z only when full. */
  lemma RowRange(lim: Limit, p: Cell -> int, x: nat, y: nat)
    requires x < lim.x && y < lim.y
    requires forall c :: InContainer(lim, c) ==> 0 <= p(c) <= 1
    ensures 0 <= Rows(lim, p, x)(y) <= lim.z
    ensures Rows(lim, p, x)(y) == lim.z ==> forall z: nat :: z < lim.z ==> p(Cell(x, y, z)) == 1
  {
    forall z: nat | z < lim.z
      ensures 0 <= Column(p, x, y)(z) <= 1
    {
      assert InContainer(lim, Cell(x, y, z));
    }
    SumRange(lim.z, Column(p, x, y), 1);
    if Rows(lim, p, x)(y) == lim.z {
      forall z: nat | z < lim.z
        ensures p(Cell(x, y, z)) == 1
      {
        assert Column(p, x, y)(z) == p(Cell(x, y, z));
      }
    }
  }

  /** A plane (fixed x) of a 0/1 indicator sums to at most lim.y * lim.z, and to that only when full. */
  lemma PlaneRange(lim: Limit, p: Cell -> int, x: nat)
    requires x < lim.x
    requires forall c :: InContainer(lim, c) ==> 0 <= p(c) <= 1
    ensures 0 <= Planes(lim, p)(x) <= lim.y * lim.z
    ensures Planes(lim, p)(x) == lim.y * lim.z ==> forall y: nat :: y < lim.y ==> Rows(lim, p, x)(y) == lim.z
  {
    forall y: nat | y < lim.y
      ensures 0 <= Rows(lim, p, x)(y) <= lim.z
    {
      RowRange(lim, p, x, y);
    }
    SumRange(lim.y, Rows(lim, p, x), lim.z);
  }

  /**
    Counting cells with a 0/1 indicator gives at most the number of cells,
    and exactly that many only when the indicator is 1 everywhere.
   */
  lemma TotalRange(lim: Limit, p: Cell -> int)
    requires forall c :: InContainer(lim, c) ==> 0 <= p(c) <= 1
    ensures 0 <= Total(lim, p) <= lim.x * lim.y * lim.z
    ensures Total(lim, p) == lim.x * lim.y * lim.z ==> forall c :: InContainer(lim, c) ==> p(c) == 1
  {
    forall x: nat | x < lim.x
      ensures 0 <= Planes(lim, p)(x) <= lim.y * lim.z
    {
      PlaneRange(lim, p, x);
    }
    SumRange(lim.x, Planes(lim, p), lim.y * lim.z);
    assert lim.x * (lim.y * lim.z) == lim.x * lim.y * lim.z;
    if Total(lim, p) == lim.x * lim.y * lim.z {
      forall c | InContainer(lim, c)
        ensures p(c) == 1
      {
        PlaneRange(lim, p, c.x);
        RowRange(lim, p, c.x, c.y);
        assert Column(p, c.x, c.y)(c.z) == p(c);
      }
    }
  }

  /** The (x, y) row of a box indicator counts the box's height when the box spans (x, y), else 0. */
  lemma RowBox(lim: Limit, p: Cell -> int, b: Item, o: Cell, x: nat, y: nat)
    requires InLimit(lim, b, o) && x < lim.x && y < lim.y
    requires forall c :: InContainer(lim, c) ==> p(c) == (if Covers(b, o, c) then 1 else 0)
    ensures Rows(lim, p, x)(y) == (if o.x <= x < o.x + b.x && o.y <= y < o.y + b.y then b.z else 0)
  {
    var m := if o.x <= x < o.x + b.x && o.y <= y < o.y + b.y then 1 else 0;
    forall z: nat | z < lim.z
      ensures Column(p, x, y)(z) == (if o.z <= z < o.z + b.z then m else 0)
    {
      assert InContainer(lim, Cell(x, y, z));
    }
    SumWindow(lim.z, Column(p, x, y), o.z, b.z, m);
  }

  /** The x plane of a box indicator counts the box's cross-section when the box spans x, else 0. */
  lemma PlaneBox(lim: Limit, p: Cell -> int, b: Item, o: Cell, x: nat)
    requires InLimit(lim, b, o) && x < lim.x
    requires forall c :: InContainer(lim, c) ==> p(c) == (if Covers(b, o, c) then 1 else 0)
    ensures Planes(lim, p)(x) == (if o.x <= x < o.x + b.x then b.y * b.z else 0)
  {
    var m := if o.x <= x < o.x + b.x then b.z else 0;
    forall y: nat | y < lim.y
      ensures Rows(lim, p, x)(y) == (if o.y <= y < o.y + b.y then m else 0)
    {
      RowBox(lim, p, b, o, x, y);
    }
    SumWindow(lim.y, Rows(lim, p, x), o.y, b.y, m);
  }

  /** The cells covered by a box inside the container number exactly its volume. */
  lemma TotalBox(lim: Limit, p: Cell -> int, b: Item, o: Cell)
    requires InLimit(lim, b, o)
    requires forall c :: InContainer(lim, c) ==> p(c) == (if Covers(b, o, c) then 1 else 0)
    ensures Total(lim, p) == b.x * b.y * b.z
  {
    forall x: nat | x < lim.x
      ensures Planes(lim, p)(x) == (if o.x <= x < o.x + b.x then b.y * b.z else 0)
    {
      PlaneBox(lim, p, b, o, x);
    }
    SumWindow(lim.x, Planes(lim, p), o.x, b.x, b.y * b.z);
    MulAssoc(b.x, b.y, b.z);
  }

  lemma MulAssoc(a: int, b: int, c: int)
    ensures a * (b * c) == a * b * c
  {
  }

  /** An indicator that is 0 on every cell totals 0. */
  lemma TotalZero(lim: Limit, p: Cell -> int)
    requires forall c :: InContainer(lim, c) ==> p(c) == 0
    ensures Total(lim, p) == 0
  {
    forall x: nat, y: nat | x < lim.x && y < lim.y
      ensures Rows(lim, p, x)(y) == 0
    {
      forall z: nat | z < lim.z
        ensures Column(p, x, y)(z) == 0
      {
        assert InContainer(lim, Cell(x, y, z));
      }
      SumWindow(lim.z, Column(p, x, y), 0, 0, 0);
    }
    forall x: nat | x < lim.x
      ensures Planes(lim, p)(x) == 0
    {
      SumWindow(lim.y, Rows(lim, p, x), 0, 0, 0);
    }
    SumWindow(lim.x, Planes(lim, p), 0, 0, 0);
  }
}
