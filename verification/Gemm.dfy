/** The reference product of topencl.cpp and the one-item kernel `myGEMM1`, over any element type
    with any addition and multiplication: only the order of the operations is fixed. */
module Gemm {

  /** Column-major operands: `a` is m by k, `b` is k by n. */
  datatype Problem<!T> = Problem(m: nat, n: nat, k: nat, a: seq<T>, b: seq<T>, zero: T, add: (T, T) -> T,
                                 mul: (T, T) -> T)
  {
    predicate Valid()
    {
      |a| == k * m && |b| == n * k
    }

    /** The cell of `C` for a row and a column. */
    function CellOf(row: nat, col: nat): (r: nat)
      requires row < m && col < n
      ensures r < n * m
    {
      CellIn(row, col, m, n)
    }

    function A(row: nat, i: nat): T
      requires Valid() && row < m && i < k
    {
      InBlock(i, row, k, m);
      a[i * m + row]
    }

    function B(i: nat, col: nat): T
      requires Valid() && i < k && col < n
    {
      InBlock(col, i, n, k);
      b[col * k + i]
    }

    /** The first `terms` products of a row and a column, accumulated from the left. */
    function Dot(row: nat, col: nat, terms: nat): T
      requires Valid() && row < m && col < n && terms <= k
    {
      if terms == 0 then zero
      else add(Dot(row, col, terms - 1), mul(A(row, terms - 1), B(terms - 1, col)))
    }
  }

  /** Accumulation from the left, as in `acc += x` over the elements of a sequence. */
  function FoldLeft<T>(add: (T, T) -> T, zero: T, xs: seq<T>): T
  {
    if xs == [] then zero else add(FoldLeft(add, zero, xs[..|xs| - 1]), xs[|xs| - 1])
  }

  /** Where the elements lie: both operands column by column. */
  lemma ElementsAre<T>(p: Problem<T>, row: nat, i: nat, col: nat)
    requires p.Valid() && row < p.m && i < p.k && col < p.n
    ensures 0 <= i * p.m + row < |p.a| && p.A(row, i) == p.a[i * p.m + row]
    ensures 0 <= col * p.k + i < |p.b| && p.B(i, col) == p.b[col * p.k + i]
  {
    InBlock(i, row, p.k, p.m);
    InBlock(col, i, p.n, p.k);
    ProductIsNat(i, p.m);
    ProductIsNat(col, p.k);
  }

  lemma ProductIsNat(a: nat, b: nat)
    ensures a * b >= 0
  {
  }

  /** The products that a cell of the result sums up, in the order of k. */
  function Products<T>(p: Problem<T>, row: nat, col: nat, terms: nat): (r: seq<T>)
    requires p.Valid() && row < p.m && col < p.n && terms <= p.k
    ensures |r| == terms
  {
    if terms == 0 then [] else
    Products(p, row, col, terms - 1) + [p.mul(p.A(row, terms - 1), p.B(terms - 1, col))]
  }

  /** Written out: column-major `a` is read along its row, column-major `b` down its column. */
  lemma {:induction false} ProductsAre<T>(p: Problem<T>, row: nat, col: nat, terms: nat, i: nat)
    requires p.Valid() && row < p.m && col < p.n && i < terms <= p.k
    ensures 0 <= i * p.m + row < |p.a| && 0 <= col * p.k + i < |p.b|
    ensures Products(p, row, col, terms)[i] == p.mul(p.a[i * p.m + row], p.b[col * p.k + i])
  {
    if i < terms - 1 {
      ProductsAre(p, row, col, terms - 1, i);
    } else {
      ElementsAre(p, row, i, col);
    }
  }

  lemma FoldOneMore<T>(add: (T, T) -> T, zero: T, xs: seq<T>, x: T)
    ensures FoldLeft(add, zero, xs + [x]) == add(FoldLeft(add, zero, xs), x)
  {
    assert (xs + [x])[..|xs|] == xs;
  }

  lemma {:induction false} DotIsFold<T>(p: Problem<T>, row: nat, col: nat, terms: nat)
    requires p.Valid() && row < p.m && col < p.n && terms <= p.k
    ensures p.Dot(row, col, terms) == FoldLeft(p.add, p.zero, Products(p, row, col, terms))
  {
    if terms > 0 {
      DotIsFold(p, row, col, terms - 1);
      FoldOneMore(p.add, p.zero, Products(p, row, col, terms - 1), p.mul(p.A(row, terms - 1), p.B(terms - 1, col)));
    }
  }

  lemma InBlock(outer: nat, inner: nat, blocks: nat, size: nat)
    requires outer < blocks && inner < size
    ensures outer * size + inner < blocks * size
  {
    assert (outer + 1) * size <= blocks * size;
  }

  lemma LaterColumn(r: nat, c: nat, r': nat, c': nat, m: nat)
    requires r < m && c < c'
    ensures c * m + r < c' * m + r'
  {
    assert (c + 1) * m <= c' * m;
  }

  /** Distinct (row, column) pairs have distinct cells. */
  lemma CellsAreDistinct(r: nat, c: nat, r': nat, c': nat, m: nat)
    requires r < m && r' < m && c * m + r == c' * m + r'
    ensures r == r' && c == c'
  {
    if c < c' {
      LaterColumn(r, c, r', c', m);
    } else if c' < c {
      LaterColumn(r', c', r, c, m);
    }
  }

  /** Every cell of `C` belongs to one row and one column. */
  lemma CellHasOwner(x: nat, m: nat, n: nat) returns (r: nat, c: nat)
    requires m > 0 && x < n * m
    ensures r < m && c < n && c * m + r == x
  {
    r, c := x % m, x / m;
    assert x == m * (x / m) + x % m;
    if c >= n {
      Scaled(n, c, m);
    }
  }

  lemma Scaled(i: nat, j: nat, m: nat)
    requires i <= j
    ensures i * m <= j * m
  {
  }

  method MatMult<T>(p: Problem<T>, c: array<T>)
    requires p.Valid() && c.Length >= p.n * p.m
    modifies c
    ensures forall row, col | 0 <= row < p.m && 0 <= col < p.n :: c[p.CellOf(row, col)] == p.Dot(row, col, p.k)
    ensures forall row, col | 0 <= row < p.m && 0 <= col < p.n :: IsProductAt(p, c[..], row, col)
  {
    for m := 0 to p.m
      invariant forall row, col | 0 <= row < m && 0 <= col < p.n :: c[p.CellOf(row, col)] == p.Dot(row, col, p.k)
    {
      for n := 0 to p.n
        invariant forall row, col | 0 <= row < m && 0 <= col < p.n :: c[p.CellOf(row, col)] == p.Dot(row, col, p.k)
        invariant forall col | 0 <= col < n :: c[p.CellOf(m, col)] == p.Dot(m, col, p.k)
      {
        var acc := p.zero;
        for k := 0 to p.k
          invariant acc == p.Dot(m, n, k)
        {
          acc := p.add(acc, p.mul(p.A(m, k), p.B(k, n)));
        }
        forall row, col | 0 <= row < p.m && 0 <= col < p.n && p.CellOf(row, col) == p.CellOf(m, n)
          ensures row == m && col == n
        {
          CellsAreDistinct(row, col, m, n, p.m);
        }
        c[p.CellOf(m, n)] := acc;
      }
    }
    forall row, col | 0 <= row < p.m && 0 <= col < p.n
      ensures IsProductAt(p, c[..], row, col)
    {
      AtCell(p, c[..], row, col);
    }
  }

  /** The cell at `col * m + row` holds the left fold of its products. */
  ghost predicate IsProductAt<T>(p: Problem<T>, c: seq<T>, row: nat, col: nat)
  {
    && p.Valid() && row < p.m && col < p.n && 0 <= col * p.m + row < |c|
    && c[col * p.m + row] == FoldLeft(p.add, p.zero, Products(p, row, col, p.k))
  }

  lemma AtCell<T>(p: Problem<T>, c: seq<T>, row: nat, col: nat)
    requires p.Valid() && |c| >= p.n * p.m && row < p.m && col < p.n
    requires c[p.CellOf(row, col)] == p.Dot(row, col, p.k)
    ensures IsProductAt(p, c, row, col)
  {
    CellWrittenOut(p, row, col);
    DotIsFold(p, row, col, p.k);
  }

  /** The cell of a row and a column of an m by n result. */
  function CellIn(row: nat, col: nat, m: nat, n: nat): (r: nat)
    requires row < m && col < n
    ensures r < n * m
  {
    InBlock(col, row, n, m);
    col * m + row
  }

  lemma CellWrittenOut<T>(p: Problem<T>, row: nat, col: nat)
    requires row < p.m && col < p.n
    ensures 0 <= col * p.m + row == p.CellOf(row, col)
  {
    ProductIsNat(col, p.m);
  }

  /** The cell at `col * m + row` was written once, and holds the left fold of the first products. */
  ghost predicate HoldsFold<T>(p: Problem<T>, row: nat, col: nat, terms: int, c: map<nat, T>, writes: multiset<nat>)
  {
    && p.Valid() && row < p.m && col < p.n && 0 <= terms <= p.k && 0 <= col * p.m + row
    && var cell: nat := col * p.m + row;
       && cell in c && writes[cell] == 1
       && c[cell] == FoldLeft(p.add, p.zero, Products(p, row, col, terms))
  }

  lemma CellHoldsFold<T>(p: Problem<T>, row: nat, col: nat, terms: nat, c: map<nat, T>, writes: multiset<nat>)
    requires p.Valid() && row < p.m && col < p.n && terms <= p.k
    requires p.CellOf(row, col) in c && c[p.CellOf(row, col)] == p.Dot(row, col, terms)
    requires writes[p.CellOf(row, col)] == 1
    ensures HoldsFold(p, row, col, terms, c, writes)
  {
    CellWrittenOut(p, row, col);
    DotIsFold(p, row, col, terms);
  }

  /** The rows and columns at which two results differ, up to column `n'` of row `m'`. */
  ghost function Differing<T>(a: seq<T>, b: seq<T>, m: nat, n: nat, m': nat, n': nat): set<(nat, nat)>
    requires |a| >= n * m && |b| >= n * m
  {
    set r: nat, c: nat | r < m && c < n && (r < m' || (r == m' && c < n'))
                         && a[CellIn(r, c, m, n)] != b[CellIn(r, c, m, n)] :: (r, c)
  }

  /** `matcmp`: at how many places two results differ. */
  method MatCmp<T(==)>(a: seq<T>, b: seq<T>, m: nat, n: nat) returns (ecnt: nat)
    requires |a| >= n * m && |b| >= n * m
    ensures ecnt == |Differing(a, b, m, n, m, 0)|
    ensures ecnt == 0 <==> forall x | 0 <= x < n * m :: a[x] == b[x]
  {
    ecnt := 0;
    for row := 0 to m
      invariant ecnt == |Differing(a, b, m, n, row, 0)|
    {
      for col := 0 to n
        invariant ecnt == |Differing(a, b, m, n, row, col)|
      {
        DifferingNext(a, b, m, n, row, col);
        if a[CellIn(row, col, m, n)] != b[CellIn(row, col, m, n)] {
          ecnt := ecnt + 1;
        }
      }
      assert Differing(a, b, m, n, row, n) == Differing(a, b, m, n, row + 1, 0);
    }
    NothingDiffers(a, b, m, n);
  }

  lemma DifferingNext<T>(a: seq<T>, b: seq<T>, m: nat, n: nat, row: nat, col: nat)
    requires |a| >= n * m && |b| >= n * m && row < m && col < n
    ensures var next := Differing(a, b, m, n, row, col + 1);
            |next| == |Differing(a, b, m, n, row, col)|
                      + if a[CellIn(row, col, m, n)] != b[CellIn(row, col, m, n)] then 1 else 0
  {
    var now := Differing(a, b, m, n, row, col);
    if a[CellIn(row, col, m, n)] != b[CellIn(row, col, m, n)] {
      assert Differing(a, b, m, n, row, col + 1) == now + {(row, col)};
    } else {
      assert Differing(a, b, m, n, row, col + 1) == now;
    }
  }

  lemma NothingDiffers<T>(a: seq<T>, b: seq<T>, m: nat, n: nat)
    requires |a| >= n * m && |b| >= n * m
    ensures |Differing(a, b, m, n, m, 0)| == 0 <==> forall x | 0 <= x < n * m :: a[x] == b[x]
  {
    if x: nat :| x < n * m && a[x] != b[x] {
      assert m > 0;
      var r, c := CellHasOwner(x, m, n);
      assert CellIn(r, c, m, n) == x;
      assert (r, c) in Differing(a, b, m, n, m, 0);
    } else {
      assert Differing(a, b, m, n, m, 0) == {};
    }
  }

  /** `myGEMM1`: one work-item writes its own cell and no other. */
  method MyGemm1<T>(p: Problem<T>, globalRow: nat, globalCol: nat, c: array<T>)
    requires p.Valid() && c.Length == p.n * p.m && globalRow < p.m && globalCol < p.n
    modifies c
    ensures c[..] == old(c[..])[p.CellOf(globalRow, globalCol) := p.Dot(globalRow, globalCol, p.k)]
    ensures 0 <= globalCol * p.m + globalRow < c.Length
    ensures c[..] == old(c[..])[globalCol * p.m + globalRow :=
                                FoldLeft(p.add, p.zero, Products(p, globalRow, globalCol, p.k))]
  {
    DotIsFold(p, globalRow, globalCol, p.k);
    var acc := p.zero;
    for k := 0 to p.k
      invariant acc == p.Dot(globalRow, globalCol, k)
    {
      acc := p.add(acc, p.mul(p.A(globalRow, k), p.B(k, globalCol)));
    }
    c[p.CellOf(globalRow, globalCol)] := acc;
  }

  /** Operands of all ones under an addition that counts them. */
  ghost predicate CountsOnes(p: Problem<int>, row: nat, col: nat)
  {
    && p.Valid() && row < p.m && col < p.n
    && p.zero == 0 && p.mul(1, 1) == 1 && (forall x :: p.add(x, 1) == x + 1)
    && forall i | 0 <= i < p.k :: p.A(row, i) == 1 && p.B(i, col) == 1
  }

  /** With all ones, a product of `terms` terms counts them. */
  lemma {:induction false} DotOfOnes(p: Problem<int>, row: nat, col: nat, terms: nat)
    requires CountsOnes(p, row, col) && terms <= p.k
    ensures p.Dot(row, col, terms) == terms
  {
    if terms > 0 {
      DotOfOnes(p, row, col, terms - 1);
      assert p.A(row, terms - 1) == 1 && p.B(terms - 1, col) == 1;
    }
  }
}
