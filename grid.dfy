/** The index arithmetic of the particle grid: where particle (i, j) sits in
    the particle list, and which cells the 8-neighbour stencil links it to. */
module Grid {

  /** A grid index (i, j): column i along x, row j along y. */
  datatype Cell = Cell(i: int, j: int)

  predicate InGrid(numx: int, numy: int, c: Cell) {
    0 <= c.i < numx && 0 <= c.j < numy
  }

  /** Two distinct cells that differ by at most one in each coordinate. */
  predicate Adjacent(c: Cell, d: Cell) {
    c != d && -1 <= c.i - d.i <= 1 && -1 <= c.j - d.j <= 1
  }

  // ---------------------------------------------------------------------
  // Placement: particle (i, j) is ps[j*numx + i]

  /** The slot of cell c in the particle list. */
  function Slot(numx: int, numy: int, c: Cell): (k: nat)
    requires InGrid(numx, numy, c)
    ensures k < numx * numy
  {
    assert c.j * numx <= (numy - 1) * numx by {
      MulLeq(c.j, numy - 1, numx);
    }
    c.j * numx + c.i
  }

  lemma MulLeq(a: int, b: int, n: nat)
    requires a <= b
    ensures a * n <= b * n
  {
  }

  /** The cell stored in slot k. */
  function CellAt(numx: int, k: nat): (c: Cell)
    requires numx > 0
  {
    Cell(k % numx, k / numx)
  }

  /** Distinct cells get distinct slots. */
  lemma {:induction false} SlotInjective(numx: int, numy: int, c: Cell, d: Cell)
    requires InGrid(numx, numy, c) && InGrid(numx, numy, d)
    requires Slot(numx, numy, c) == Slot(numx, numy, d)
    ensures c == d
  {
    if c.j < d.j {
      MulLeq(c.j + 1, d.j, numx);
      assert false;
    } else if d.j < c.j {
      MulLeq(d.j + 1, c.j, numx);
      assert false;
    }
  }

  /** Every slot of [0, numx*numy) holds exactly the cell CellAt gives. */
  lemma {:induction false} SlotSurjective(numx: int, numy: int, k: nat)
    requires numx > 0 && k < numx * numy
    ensures InGrid(numx, numy, CellAt(numx, k))
    ensures Slot(numx, numy, CellAt(numx, k)) == k
  {
    var c := CellAt(numx, k);
    assert k == c.j * numx + c.i;
    if c.j >= numy {
      MulLeq(numy, c.j, numx);
      assert false;
    }
  }

  /** The slot map is a bijection between the grid and [0, numx*numy). */
  lemma SlotBijection(numx: int, numy: int)
    ensures forall c, d :: InGrid(numx, numy, c) && InGrid(numx, numy, d) && c != d ==>
      Slot(numx, numy, c) != Slot(numx, numy, d)
    ensures numx > 0 ==> forall k: nat :: k < numx * numy ==>
      InGrid(numx, numy, CellAt(numx, k)) && Slot(numx, numy, CellAt(numx, k)) == k
  {
    forall c, d | InGrid(numx, numy, c) && InGrid(numx, numy, d) && c != d
      ensures Slot(numx, numy, c) != Slot(numx, numy, d)
    {
      if Slot(numx, numy, c) == Slot(numx, numy, d) {
        SlotInjective(numx, numy, c, d);
      }
    }
    if numx > 0 {
      forall k: nat | k < numx * numy
        ensures InGrid(numx, numy, CellAt(numx, k)) && Slot(numx, numy, CellAt(numx, k)) == k
      {
        SlotSurjective(numx, numy, k);
      }
    }
  }

  // ---------------------------------------------------------------------
  // Connectivity stencil

  /** The neighbours the connectivity loop appends for cell c, in the order
      it appends them: the side columns, then below and above in c's own
      column. */
  function Stencil(numx: int, numy: int, c: Cell): (cs: seq<Cell>)
    requires InGrid(numx, numy, c)
    ensures forall d | d in cs :: InGrid(numx, numy, d) && Adjacent(c, d)
  {
    Sides(numx, numy, c) + Ends(numx, numy, c)
  }

  /** The left column (when c is not in the first one), then the right
      column (when c is not in the last one). */
  function Sides(numx: int, numy: int, c: Cell): (cs: seq<Cell>)
    requires InGrid(numx, numy, c)
    ensures forall d | d in cs :: InGrid(numx, numy, d) && Adjacent(c, d) && d.i != c.i
  {
    (if c.i != 0 then Column(numy, c, c.i - 1) else [])
    + (if c.i != numx - 1 then Column(numy, c, c.i + 1) else [])
  }

  /** The cells of column i beside c: same row first, then below and above. */
  function Column(numy: int, c: Cell, i: int): (cs: seq<Cell>)
    requires 0 <= c.j < numy
    ensures forall d | d in cs :: d.i == i && 0 <= d.j < numy && -1 <= d.j - c.j <= 1
  {
    [Cell(i, c.j)]
    + (if c.j > 0 then [Cell(i, c.j - 1)] else [])
    + (if c.j < numy - 1 then [Cell(i, c.j + 1)] else [])
  }

  /** Below, then above c in its own column. */
  function Ends(numx: int, numy: int, c: Cell): (cs: seq<Cell>)
    requires InGrid(numx, numy, c)
    ensures forall d | d in cs :: InGrid(numx, numy, d) && Adjacent(c, d) && d.i == c.i
  {
    (if c.j != 0 then [Cell(c.i, c.j - 1)] else [])
    + (if c.j != numy - 1 then [Cell(c.i, c.j + 1)] else [])
  }

  /** The eight stencil offsets in their fixed order, as drawn in the
      particle's docstring: 1, 5, 8, 2, 7, 6, 3, 4, that is (-1, 0), (-1, -1),
      (-1, 1), (1, 0), (1, -1), (1, 1), (0, -1), (0, 1). */
  const Offsets: seq<Cell> := ColumnOffsets(-1) + ColumnOffsets(1) + [Cell(0, -1), Cell(0, 1)]

  /** The offsets of one side column: same row, below, above. */
  function ColumnOffsets(di: int): (os: seq<Cell>)
    ensures |os| == 3 && forall o | o in os :: o.i == di
  {
    [Cell(di, 0), Cell(di, -1), Cell(di, 1)]
  }

  /** Reference definition: c shifted by each offset, keeping those in the grid. */
  function InBounds(numx: int, numy: int, c: Cell, offsets: seq<Cell>): (cs: seq<Cell>)
    ensures |cs| <= |offsets|
  {
    if offsets == [] then []
    else
      var d := Cell(c.i + offsets[0].i, c.j + offsets[0].j);
      (if InGrid(numx, numy, d) then [d] else []) + InBounds(numx, numy, c, offsets[1..])
  }

  /** The filter keeps in-grid cells only. */
  lemma {:induction false} InBoundsInGrid(numx: int, numy: int, c: Cell, offsets: seq<Cell>)
    ensures forall d | d in InBounds(numx, numy, c, offsets) :: InGrid(numx, numy, d)
  {
    if offsets != [] {
      InBoundsInGrid(numx, numy, c, offsets[1..]);
    }
  }

  /** The connectivity loop lists exactly the in-grid cells of the fixed
      offset order, in that order, skipping those that fall outside. */
  lemma StencilOrder(numx: int, numy: int, c: Cell)
    requires InGrid(numx, numy, c)
    ensures Stencil(numx, numy, c) == InBounds(numx, numy, c, Offsets)
  {
    var ends := [Cell(0, -1), Cell(0, 1)];
    InBoundsAppend(numx, numy, c, ColumnOffsets(-1) + ColumnOffsets(1), ends);
    SidesOrder(numx, numy, c);
    EndsOrder(numx, numy, c);
  }

  lemma SidesOrder(numx: int, numy: int, c: Cell)
    requires InGrid(numx, numy, c)
    ensures InBounds(numx, numy, c, ColumnOffsets(-1) + ColumnOffsets(1)) == Sides(numx, numy, c)
  {
    InBoundsAppend(numx, numy, c, ColumnOffsets(-1), ColumnOffsets(1));
    ColumnOrder(numx, numy, c, -1);
    ColumnOrder(numx, numy, c, 1);
  }

  lemma EndsOrder(numx: int, numy: int, c: Cell)
    requires InGrid(numx, numy, c)
    ensures InBounds(numx, numy, c, [Cell(0, -1), Cell(0, 1)]) == Ends(numx, numy, c)
  {
    var ends := [Cell(0, -1), Cell(0, 1)];
    assert ends[1..][1..] == [];
  }

  /** The three offsets of one side column, in the order the loop tries them. */
  lemma ColumnOrder(numx: int, numy: int, c: Cell, di: int)
    requires InGrid(numx, numy, c)
    ensures InBounds(numx, numy, c, ColumnOffsets(di)) == if 0 <= c.i + di < numx then Column(numy, c, c.i + di) else []
  {
    var group := ColumnOffsets(di);
    var g1, g2 := group[1..], group[1..][1..];
    assert g2[1..] == [];
    assert InBounds(numx, numy, c, g2) == InBounds(numx, numy, c, [Cell(di, 1)]);
    assert InBounds(numx, numy, c, g1) ==
      (if 0 <= c.i + di < numx && c.j > 0 then [Cell(c.i + di, c.j - 1)] else []) + InBounds(numx, numy, c, g2);
  }

  lemma {:induction false} InBoundsAppend(numx: int, numy: int, c: Cell, a: seq<Cell>, b: seq<Cell>)
    ensures InBounds(numx, numy, c, a + b) == InBounds(numx, numy, c, a) + InBounds(numx, numy, c, b)
  {
    if a != [] {
      assert (a + b)[1..] == a[1..] + b;
      InBoundsAppend(numx, numy, c, a[1..], b);
    } else {
      assert a + b == b;
    }
  }

  /** Number of the rows (or columns) k-1, k, k+1 that exist in [0, n). */
  function Span(k: int, n: int): (s: nat)
    requires 0 <= k < n
    ensures 1 <= s <= 3
    ensures s == 3 <==> 0 < k < n - 1
    ensures s == 1 <==> n == 1
  {
    (if k > 0 then 1 else 0) + 1 + (if k < n - 1 then 1 else 0)
  }

  /** The stencil holds every in-grid 8-neighbour of c: together with the
      ensures of Stencil, d is listed exactly when it is an in-grid neighbour. */
  lemma StencilComplete(numx: int, numy: int, c: Cell, d: Cell)
    requires InGrid(numx, numy, c) && InGrid(numx, numy, d) && Adjacent(c, d)
    ensures d in Stencil(numx, numy, c)
  {
    if d.i == c.i - 1 {
      ColumnComplete(numy, c, d);
      assert d in Sides(numx, numy, c);
    } else if d.i == c.i + 1 {
      ColumnComplete(numy, c, d);
      assert d in Sides(numx, numy, c);
    } else {
      assert d == Cell(c.i, c.j - 1) || d == Cell(c.i, c.j + 1);
      assert d in Ends(numx, numy, c);
    }
  }

  lemma ColumnComplete(numy: int, c: Cell, d: Cell)
    requires 0 <= c.j < numy && 0 <= d.j < numy && -1 <= d.j - c.j <= 1
    ensures d in Column(numy, c, d.i)
  {
    var cs := Column(numy, c, d.i);
    if d.j == c.j - 1 {
      assert cs[1] == d;
    } else if d.j == c.j + 1 {
      assert cs[|cs| - 1] == d;
    } else {
      assert cs[0] == d;
    }
  }

  /** No cell occurs twice in cs. */
  predicate NoDuplicates(cs: seq<Cell>) {
    forall a, b | 0 <= a < b < |cs| :: cs[a] != cs[b]
  }

  /** No neighbour is listed twice. */
  lemma StencilNoDuplicates(numx: int, numy: int, c: Cell)
    requires InGrid(numx, numy, c)
    ensures NoDuplicates(Stencil(numx, numy, c))
  {
    var sides, ends := Sides(numx, numy, c), Ends(numx, numy, c);
    SidesNoDuplicates(numx, numy, c);
    EndsNoDuplicates(numx, numy, c);
    SidesEndsDisjoint(numx, numy, c);
    AppendNoDuplicates(sides, ends);
  }

  lemma EndsNoDuplicates(numx: int, numy: int, c: Cell)
    requires InGrid(numx, numy, c)
    ensures NoDuplicates(Ends(numx, numy, c))
  {
  }

  /** The side columns and c's own column share no cell. */
  lemma SidesEndsDisjoint(numx: int, numy: int, c: Cell)
    requires InGrid(numx, numy, c)
    ensures forall d | d in Sides(numx, numy, c) :: d !in Ends(numx, numy, c)
  {
    forall d | d in Sides(numx, numy, c)
      ensures d !in Ends(numx, numy, c)
    {
      assert d.i != c.i;
    }
  }

  lemma SidesNoDuplicates(numx: int, numy: int, c: Cell)
    requires InGrid(numx, numy, c)
    ensures NoDuplicates(Sides(numx, numy, c))
  {
    var left := if c.i != 0 then Column(numy, c, c.i - 1) else [];
    var right := if c.i != numx - 1 then Column(numy, c, c.i + 1) else [];
    ColumnNoDuplicates(numy, c, c.i - 1);
    ColumnNoDuplicates(numy, c, c.i + 1);
    AppendNoDuplicates(left, right);
  }

  lemma ColumnNoDuplicates(numy: int, c: Cell, i: int)
    requires 0 <= c.j < numy
    ensures NoDuplicates(Column(numy, c, i))
  {
  }

  lemma AppendNoDuplicates(s: seq<Cell>, t: seq<Cell>)
    requires NoDuplicates(s) && NoDuplicates(t)
    requires forall d | d in s :: d !in t
    ensures NoDuplicates(s + t)
  {
    forall a, b | 0 <= a < b < |s + t|
      ensures (s + t)[a] != (s + t)[b]
    {
      if a < |s| && b >= |s| {
        assert (s + t)[a] in s && (s + t)[b] == t[b - |s|];
      }
    }
  }

  /** The neighbour count: every existing column of i-1..i+1 times every
      existing row of j-1..j+1, less the particle itself. */
  lemma StencilCount(numx: int, numy: int, c: Cell)
    requires InGrid(numx, numy, c)
    ensures |Stencil(numx, numy, c)| == Span(c.i, numx) * Span(c.j, numy) - 1
  {
    var sy := Span(c.j, numy);
    assert |Column(numy, c, c.i - 1)| == sy && |Column(numy, c, c.i + 1)| == sy;
    assert |Ends(numx, numy, c)| == sy - 1;
    var sides := |Sides(numx, numy, c)|;
    if c.i != 0 && c.i != numx - 1 {
      assert sides == 2 * sy && Span(c.i, numx) == 3;
    } else if c.i != 0 || c.i != numx - 1 {
      assert sides == sy && Span(c.i, numx) == 2;
    } else {
      assert sides == 0 && Span(c.i, numx) == 1;
    }
  }

  /** On a grid of at least 2 x 2: 8 neighbours inside, 5 on an edge, 3 at a corner. */
  lemma StencilDegree(numx: int, numy: int, c: Cell)
    requires InGrid(numx, numy, c) && numx >= 2 && numy >= 2
    ensures 0 < c.i < numx - 1 && 0 < c.j < numy - 1 ==> |Stencil(numx, numy, c)| == 8
    ensures (c.i == 0 || c.i == numx - 1) && (c.j == 0 || c.j == numy - 1) ==> |Stencil(numx, numy, c)| == 3
    ensures (0 < c.i < numx - 1) != (0 < c.j < numy - 1) ==> |Stencil(numx, numy, c)| == 5
  {
    StencilCount(numx, numy, c);
  }

  /** Links are symmetric: d lists c exactly when c lists d. */
  lemma StencilSymmetric(numx: int, numy: int, c: Cell, d: Cell)
    requires InGrid(numx, numy, c) && InGrid(numx, numy, d)
    ensures d in Stencil(numx, numy, c) <==> c in Stencil(numx, numy, d)
  {
    if d in Stencil(numx, numy, c) {
      StencilComplete(numx, numy, d, c);
    }
    if c in Stencil(numx, numy, d) {
      StencilComplete(numx, numy, c, d);
    }
  }
}
