/** Building the lattice: creating the particle list, placing every particle
    on the grid, linking it to its stencil neighbours and recording each
    link's rest length. */
module Lattice {
  import opened Floats
  import opened Grid
  import opened Particles

  /** No particle object appears twice in the list. */
  predicate Distinct(ps: seq<Particle>) {
    forall a, b | 0 <= a < |ps| && 0 <= b < |ps| && a != b :: ps[a] != ps[b]
  }

  /** `ps = [P(size) for _ in range(count)]` */
  method NewParticles(count: nat, size: real) returns (ps: seq<Particle>)
    ensures |ps| == count && Distinct(ps)
    ensures forall k | 0 <= k < count :: fresh(ps[k]) && ps[k].size == size && ps[k].Initial()
  {
    ps := [];
    while |ps| < count
      invariant |ps| <= count && Distinct(ps)
      invariant forall k | 0 <= k < |ps| :: fresh(ps[k]) && ps[k].size == size && ps[k].Initial()
    {
      var p := new Particle(size);
      ps := ps + [p];
    }
  }

  // ---------------------------------------------------------------------
  // Placement

  /** Rest coordinate of index k on a span of length len with num points:
      linear interpolation from 0 to len. */
  function RestCoord(len: real, k: int, num: int): (r: real)
    requires num >= 2
    ensures k == 0 ==> r == 0.0
    ensures k == num - 1 ==> r == len
    ensures 0.0 <= len && 0 <= k <= num - 1 ==> 0.0 <= r <= len
  {
    len * (k as real) / ((num - 1) as real)
  }

  /** Consecutive points are evenly spaced, len / (num - 1) apart. */
  lemma RestCoordSpacing(len: real, k: int, num: int)
    requires num >= 2
    ensures RestCoord(len, k + 1, num) - RestCoord(len, k, num) == len / ((num - 1) as real)
  {
    var n := (num - 1) as real;
    calc {
      RestCoord(len, k + 1, num) - RestCoord(len, k, num);
      len * ((k + 1) as real) / n - len * (k as real) / n;
      (len * ((k + 1) as real) - len * (k as real)) / n;
      len / n;
    }
  }

  /** What placement writes into the particle of cell c: its index, its rest
      position, and that position as both current and committed position. */
  function PlacedAt(numx: int, numy: int, lenx: real, leny: real, c: Cell): (r: Placement)
    requires numx >= 2 && numy >= 2
    ensures r.i == c.i && r.j == c.j
    ensures r.pos == Vec(Num(r.x), Num(r.y)) && r.pos1 == r.pos
    ensures c.i == 0 ==> r.x == 0.0
    ensures c.i == numx - 1 ==> r.x == lenx
    ensures c.j == 0 ==> r.y == 0.0
    ensures c.j == numy - 1 ==> r.y == leny
  {
    var x := RestCoord(lenx, c.i, numx);
    var y := RestCoord(leny, c.j, numy);
    Placement(c.i, c.j, x, y, Vec(Num(x), Num(y)), Vec(Num(x), Num(y)))
  }

  datatype PlaceResult = Placed | ZeroDivisionError

  /** The placement loop. Its division by numx - 1 and numy - 1 raises on a
      non-empty grid with a single column or row; that happens at the very
      first particle, after at most its x has been written. */
  method Place(ps: seq<Particle>, numx: nat, numy: nat, lenx: real, leny: real) returns (r: PlaceResult)
    requires |ps| == numx * numy && Distinct(ps)
    modifies ps`i, ps`j, ps`x, ps`y, ps`pos1, ps`pos
    ensures r == ZeroDivisionError <==> numx > 0 && numy > 0 && (numx == 1 || numy == 1)
    ensures r == Placed ==> forall c | InGrid(numx, numy, c) ::
      ps[Slot(numx, numy, c)].Placed() == PlacedAt(numx, numy, lenx, leny, c)
    ensures r == ZeroDivisionError ==> forall c | InGrid(numx, numy, c) ::
      ps[Slot(numx, numy, c)].Placed() ==
        if c == Cell(0, 0) && numx >= 2 then old(ps[Slot(numx, numy, c)].Placed()).(x := RestCoord(lenx, 0, numx))
        else old(ps[Slot(numx, numy, c)].Placed())
  {
    var i := 0;
    r := Placed;
    while i < numx
      invariant 0 <= i <= numx && r == Placed
      invariant i > 0 && numy > 0 ==> numx >= 2 && numy >= 2
      invariant forall c | InGrid(numx, numy, c) && c.i < i ::
        ps[Slot(numx, numy, c)].Placed() == PlacedAt(numx, numy, lenx, leny, c)
      invariant forall c | InGrid(numx, numy, c) && c.i >= i ::
        ps[Slot(numx, numy, c)].Placed() == old(ps[Slot(numx, numy, c)].Placed())
    {
      r := PlaceColumn(ps, numx, numy, lenx, leny, i);
      if r == ZeroDivisionError {
        return;
      }
      i := i + 1;
    }
  }

  /** The inner loop of the placement pass: the particles of column i, bottom
      to top, until the division raises. */
  method PlaceColumn(ps: seq<Particle>, numx: nat, numy: nat, lenx: real, leny: real, i: int) returns (r: PlaceResult)
    requires |ps| == numx * numy && Distinct(ps) && 0 <= i < numx
    modifies ps`i, ps`j, ps`x, ps`y, ps`pos1, ps`pos
    ensures r == ZeroDivisionError <==> numy > 0 && (numx == 1 || numy == 1)
    ensures r == Placed ==> forall c | InGrid(numx, numy, c) && c.i == i ::
      ps[Slot(numx, numy, c)].Placed() == PlacedAt(numx, numy, lenx, leny, c)
    ensures r == Placed ==> forall c | InGrid(numx, numy, c) && c.i != i ::
      ps[Slot(numx, numy, c)].Placed() == old(ps[Slot(numx, numy, c)].Placed())
    ensures r == ZeroDivisionError ==> forall c | InGrid(numx, numy, c) ::
      ps[Slot(numx, numy, c)].Placed() ==
        (if c == Cell(i, 0) && numx >= 2 then old(ps[Slot(numx, numy, c)].Placed()).(x := RestCoord(lenx, i, numx))
         else old(ps[Slot(numx, numy, c)].Placed()))
  {
    var j := 0;
    r := Placed;
    while j < numy
      invariant 0 <= j <= numy && r == Placed
      invariant j > 0 ==> numx >= 2 && numy >= 2
      invariant forall c | InGrid(numx, numy, c) && c.i == i && c.j < j ::
        ps[Slot(numx, numy, c)].Placed() == PlacedAt(numx, numy, lenx, leny, c)
      invariant forall c | InGrid(numx, numy, c) && (c.i != i || c.j >= j) ::
        ps[Slot(numx, numy, c)].Placed() == old(ps[Slot(numx, numy, c)].Placed())
    {
      r := PlaceCell(ps, numx, numy, lenx, leny, Cell(i, j));
      if r == ZeroDivisionError {
        assert j == 0;
        return;
      }
      forall c | InGrid(numx, numy, c) && c.i == i && c.j <= j
        ensures ps[Slot(numx, numy, c)].Placed() == PlacedAt(numx, numy, lenx, leny, c)
      {
        if c.j == j {
          assert c == Cell(i, j);
        }
      }
      j := j + 1;
    }
  }

  /** One turn of the placement loop: the particle of cell c gets its rest
      position and index, or the division raises, possibly after x has been
      written; every other particle is left alone. */
  method PlaceCell(ps: seq<Particle>, numx: nat, numy: nat, lenx: real, leny: real, c: Cell) returns (r: PlaceResult)
    requires |ps| == numx * numy && Distinct(ps) && InGrid(numx, numy, c)
    modifies ps`i, ps`j, ps`x, ps`y, ps`pos1, ps`pos
    ensures r == ZeroDivisionError <==> numx == 1 || numy == 1
    ensures r == Placed ==> ps[Slot(numx, numy, c)].Placed() == PlacedAt(numx, numy, lenx, leny, c)
    ensures r == ZeroDivisionError && numx >= 2 ==>
      ps[Slot(numx, numy, c)].Placed() == old(ps[Slot(numx, numy, c)].Placed()).(x := RestCoord(lenx, c.i, numx))
    ensures r == ZeroDivisionError && numx < 2 ==>
      ps[Slot(numx, numy, c)].Placed() == old(ps[Slot(numx, numy, c)].Placed())
    ensures forall d | InGrid(numx, numy, d) && d != c ::
      ps[Slot(numx, numy, d)].Placed() == old(ps[Slot(numx, numy, d)].Placed())
  {
    var p := ps[Slot(numx, numy, c)];
    forall d | InGrid(numx, numy, d) && d != c
      ensures ps[Slot(numx, numy, d)] != p
    {
      if Slot(numx, numy, d) == Slot(numx, numy, c) {
        SlotInjective(numx, numy, d, c);
      }
    }
    if numx - 1 == 0 {
      return ZeroDivisionError;
    }
    p.x := RestCoord(lenx, c.i, numx);
    if numy - 1 == 0 {
      return ZeroDivisionError;
    }
    PlaceRest(p, numx, numy, leny, c);
    r := Placed;
  }

  /** The rest of the placement of one particle, once its x is written:
      its y, position, committed position and grid index. */
  method PlaceRest(p: Particle, numx: int, numy: int, leny: real, c: Cell)
    requires numy >= 2
    modifies p`y, p`pos, p`pos1, p`i, p`j
    ensures p.Placed() == old(p.Placed()).(y := RestCoord(leny, c.j, numy),
      pos := Vec(Num(p.x), Num(p.y)), pos1 := Vec(Num(p.x), Num(p.y)), i := c.i, j := c.j)
  {
    p.y := RestCoord(leny, c.j, numy);
    p.pos := Vec(Num(p.x), Num(p.y));
    p.pos1 := Vec(Num(p.x), Num(p.y));
    p.i := c.i;
    p.j := c.j;
  }

  // ---------------------------------------------------------------------
  // Connectivity

  /** The particles stored at the given cells (the source's psdict lookups). */
  function Pick(ps: seq<Particle>, numx: int, numy: int, cs: seq<Cell>): (qs: seq<Particle>)
    requires |ps| == numx * numy
    requires forall d | d in cs :: InGrid(numx, numy, d)
    ensures |qs| == |cs|
  {
    seq(|cs|, k requires 0 <= k < |cs| => ps[Slot(numx, numy, cs[k])])
  }

  lemma PickAppend(ps: seq<Particle>, numx: int, numy: int, a: seq<Cell>, b: seq<Cell>)
    requires |ps| == numx * numy
    requires forall d | d in a + b :: InGrid(numx, numy, d)
    ensures Pick(ps, numx, numy, a + b) == Pick(ps, numx, numy, a) + Pick(ps, numx, numy, b)
  {
  }

  /** The neighbour list the connectivity loop builds for cell c. */
  function Neighbours(ps: seq<Particle>, numx: int, numy: int, c: Cell): (qs: seq<Particle>)
    requires |ps| == numx * numy && InGrid(numx, numy, c)
    ensures |qs| <= 8
  {
    InBoundsInGrid(numx, numy, c, Offsets);
    Pick(ps, numx, numy, InBounds(numx, numy, c, Offsets))
  }

  /** The connectivity loop: appends to each particle's padjs the particles
      of its in-grid stencil cells, in stencil order. */
  method Connect(ps: seq<Particle>, numx: nat, numy: nat)
    requires |ps| == numx * numy && Distinct(ps)
    modifies ps`padjs
    ensures forall c | InGrid(numx, numy, c) ::
      ps[Slot(numx, numy, c)].padjs == old(ps[Slot(numx, numy, c)].padjs) + Neighbours(ps, numx, numy, c)
  {
    var i := 0;
    while i < numx
      invariant 0 <= i <= numx
      invariant forall c | InGrid(numx, numy, c) && c.i < i ::
        ps[Slot(numx, numy, c)].padjs == old(ps[Slot(numx, numy, c)].padjs) + Neighbours(ps, numx, numy, c)
      invariant forall c | InGrid(numx, numy, c) && c.i >= i ::
        ps[Slot(numx, numy, c)].padjs == old(ps[Slot(numx, numy, c)].padjs)
    {
      ConnectColumn(ps, numx, numy, i);
      i := i + 1;
    }
  }

  /** The inner loop of the connectivity pass: the particles of column i. */
  method ConnectColumn(ps: seq<Particle>, numx: nat, numy: nat, i: int)
    requires |ps| == numx * numy && Distinct(ps) && 0 <= i < numx
    modifies ps`padjs
    ensures forall c | InGrid(numx, numy, c) && c.i == i ::
      ps[Slot(numx, numy, c)].padjs == old(ps[Slot(numx, numy, c)].padjs) + Neighbours(ps, numx, numy, c)
    ensures forall c | InGrid(numx, numy, c) && c.i != i ::
      ps[Slot(numx, numy, c)].padjs == old(ps[Slot(numx, numy, c)].padjs)
  {
    var j := 0;
    while j < numy
      invariant 0 <= j <= numy
      invariant forall c | InGrid(numx, numy, c) && c.i == i && c.j < j ::
        ps[Slot(numx, numy, c)].padjs == old(ps[Slot(numx, numy, c)].padjs) + Neighbours(ps, numx, numy, c)
      invariant forall c | InGrid(numx, numy, c) && (c.i != i || c.j >= j) ::
        ps[Slot(numx, numy, c)].padjs == old(ps[Slot(numx, numy, c)].padjs)
    {
      ConnectCell(ps, numx, numy, Cell(i, j));
      forall c | InGrid(numx, numy, c) && c.i == i && c.j <= j
        ensures ps[Slot(numx, numy, c)].padjs == old(ps[Slot(numx, numy, c)].padjs) + Neighbours(ps, numx, numy, c)
      {
        if c.j == j {
          assert c == Cell(i, j);
        }
      }
      j := j + 1;
    }
  }

  /** One turn of the inner loop: the particle of cell c gets its neighbours,
      every other particle is left alone. */
  method ConnectCell(ps: seq<Particle>, numx: nat, numy: nat, c: Cell)
    requires |ps| == numx * numy && Distinct(ps) && InGrid(numx, numy, c)
    modifies ps`padjs
    ensures ps[Slot(numx, numy, c)].padjs == old(ps[Slot(numx, numy, c)].padjs) + Neighbours(ps, numx, numy, c)
    ensures forall d | InGrid(numx, numy, d) && d != c ::
      ps[Slot(numx, numy, d)].padjs == old(ps[Slot(numx, numy, d)].padjs)
  {
    var p := ps[Slot(numx, numy, c)];
    forall d | InGrid(numx, numy, d) && d != c
      ensures ps[Slot(numx, numy, d)] != p
    {
      if Slot(numx, numy, d) == Slot(numx, numy, c) {
        SlotInjective(numx, numy, d, c);
      }
    }
    LinkStencil(ps, numx, numy, p, c);
  }

  /** The body of the connectivity loop for one particle p at cell c. */
  method LinkStencil(ps: seq<Particle>, numx: nat, numy: nat, p: Particle, c: Cell)
    requires |ps| == numx * numy && InGrid(numx, numy, c)
    modifies p`padjs
    ensures p.padjs == old(p.padjs) + Neighbours(ps, numx, numy, c)
  {
    ghost var before := p.padjs;
    LinkSides(ps, numx, numy, p, c);
    LinkEnds(ps, numx, numy, p, c);
    NeighboursHalves(ps, numx, numy, c);
    AppendAssociative(before, SideNeighbours(ps, numx, numy, c), EndNeighbours(ps, numx, numy, c));
  }

  lemma AppendAssociative<T>(a: seq<T>, b: seq<T>, c: seq<T>)
    ensures a + b + c == a + (b + c)
  {
  }

  /** The neighbours in the columns left and right of c. */
  method LinkSides(ps: seq<Particle>, numx: nat, numy: nat, p: Particle, c: Cell)
    requires |ps| == numx * numy && InGrid(numx, numy, c)
    modifies p`padjs
    ensures p.padjs == old(p.padjs) + SideNeighbours(ps, numx, numy, c)
  {
    ghost var before := p.padjs;
    ghost var left, right := Side(ps, numx, numy, c, c.i - 1), Side(ps, numx, numy, c, c.i + 1);
    LinkSide(ps, numx, numy, p, c, c.i - 1);
    assert p.padjs == before + left;
    LinkSide(ps, numx, numy, p, c, c.i + 1);
    assert p.padjs == before + left + right;
    AppendAssociative(before, left, right);
    assert SideNeighbours(ps, numx, numy, c) == left + right;
  }

  /** The neighbours below and above c in its own column. */
  method LinkEnds(ps: seq<Particle>, numx: nat, numy: nat, p: Particle, c: Cell)
    requires |ps| == numx * numy && InGrid(numx, numy, c)
    modifies p`padjs
    ensures p.padjs == old(p.padjs) + EndNeighbours(ps, numx, numy, c)
  {
    var i, j := c.i, c.j;
    if j != 0 {
      p.padjs := p.padjs + [ps[Slot(numx, numy, Cell(i, j - 1))]];
    }
    if j != numy - 1 {
      p.padjs := p.padjs + [ps[Slot(numx, numy, Cell(i, j + 1))]];
    }
  }

  /** The neighbours in the columns left and right of c. */
  function SideNeighbours(ps: seq<Particle>, numx: int, numy: int, c: Cell): (qs: seq<Particle>)
    requires |ps| == numx * numy && InGrid(numx, numy, c)
    ensures |qs| <= 6
  {
    Side(ps, numx, numy, c, c.i - 1) + Side(ps, numx, numy, c, c.i + 1)
  }

  /** The particles of column ci beside c, if that column is in the grid. */
  function Side(ps: seq<Particle>, numx: int, numy: int, c: Cell, ci: int): (qs: seq<Particle>)
    requires |ps| == numx * numy && 0 <= c.j < numy
    ensures |qs| <= 3
  {
    if 0 <= ci < numx then Pick(ps, numx, numy, Column(numy, c, ci)) else []
  }

  /** The neighbours below and above c. */
  function EndNeighbours(ps: seq<Particle>, numx: int, numy: int, c: Cell): (qs: seq<Particle>)
    requires |ps| == numx * numy && InGrid(numx, numy, c)
    ensures |qs| <= 2
  {
    (if c.j != 0 then [ps[Slot(numx, numy, Cell(c.i, c.j - 1))]] else [])
    + (if c.j != numy - 1 then [ps[Slot(numx, numy, Cell(c.i, c.j + 1))]] else [])
  }

  /** The neighbour list is the side columns' particles followed by the
      particles below and above. */
  lemma NeighboursHalves(ps: seq<Particle>, numx: int, numy: int, c: Cell)
    requires |ps| == numx * numy && InGrid(numx, numy, c)
    ensures Neighbours(ps, numx, numy, c) == SideNeighbours(ps, numx, numy, c) + EndNeighbours(ps, numx, numy, c)
  {
    NeighboursStencil(ps, numx, numy, c);
    PickAppend(ps, numx, numy, Sides(numx, numy, c), Ends(numx, numy, c));
    SidesPick(ps, numx, numy, c);
    EndsPick(ps, numx, numy, c);
  }

  /** The neighbour list is the particles of the stencil, in its order. */
  lemma NeighboursStencil(ps: seq<Particle>, numx: int, numy: int, c: Cell)
    requires |ps| == numx * numy && InGrid(numx, numy, c)
    ensures Neighbours(ps, numx, numy, c) == Pick(ps, numx, numy, Stencil(numx, numy, c))
  {
    StencilOrder(numx, numy, c);
  }

  lemma SidesPick(ps: seq<Particle>, numx: int, numy: int, c: Cell)
    requires |ps| == numx * numy && InGrid(numx, numy, c)
    ensures Pick(ps, numx, numy, Sides(numx, numy, c)) == SideNeighbours(ps, numx, numy, c)
  {
    var left := if c.i != 0 then Column(numy, c, c.i - 1) else [];
    var right := if c.i != numx - 1 then Column(numy, c, c.i + 1) else [];
    PickAppend(ps, numx, numy, left, right);
  }

  lemma EndsPick(ps: seq<Particle>, numx: int, numy: int, c: Cell)
    requires |ps| == numx * numy && InGrid(numx, numy, c)
    ensures Pick(ps, numx, numy, Ends(numx, numy, c)) == EndNeighbours(ps, numx, numy, c)
  {
    var below := if c.j != 0 then [Cell(c.i, c.j - 1)] else [];
    var above := if c.j != numy - 1 then [Cell(c.i, c.j + 1)] else [];
    PickAppend(ps, numx, numy, below, above);
  }

  /** The appends for the neighbours in column ci beside c: none when that
      column is off the grid, else the one in c's row, then below, then
      above. */
  method LinkSide(ps: seq<Particle>, numx: nat, numy: nat, p: Particle, c: Cell, ci: int)
    requires |ps| == numx * numy && InGrid(numx, numy, c)
    modifies p`padjs
    ensures p.padjs == old(p.padjs) + Side(ps, numx, numy, c, ci)
  {
    if 0 <= ci < numx {
      var j := c.j;
      p.padjs := p.padjs + [ps[Slot(numx, numy, Cell(ci, j))]];
      if j > 0 {
        p.padjs := p.padjs + [ps[Slot(numx, numy, Cell(ci, j - 1))]];
      }
      if j < numy - 1 {
        p.padjs := p.padjs + [ps[Slot(numx, numy, Cell(ci, j + 1))]];
      }
    }
  }

  // ---------------------------------------------------------------------
  // Rest lengths

  /** The current positions of the given particles, in order. */
  function Positions(qs: seq<Particle>): (vs: seq<Vec>)
    reads qs`pos
    ensures |vs| == |qs|
  {
    if qs == [] then [] else Positions(qs[..|qs| - 1]) + [qs[|qs| - 1].pos]
  }

  lemma {:induction false} PositionsAt(qs: seq<Particle>, k: int)
    requires 0 <= k < |qs|
    ensures Positions(qs)[k] == qs[k].pos
  {
    if k < |qs| - 1 {
      PositionsAt(qs[..|qs| - 1], k);
    }
  }

  /** The length of one link, `((p.pos - padj.pos)**2).sum()**0.5`: NaN
      exactly when either end has a NaN coordinate, the same in both
      directions. */
  function LinkLength(a: Vec, b: Vec, sqrt: real -> real): (d: Float)
    ensures d.NaN? <==> AnyNaN(a) || AnyNaN(b)
  {
    Root(SquaredDistance(a, b), sqrt)
  }

  lemma LinkLengthSymmetric(a: Vec, b: Vec, sqrt: real -> real)
    ensures LinkLength(a, b, sqrt) == LinkLength(b, a, sqrt)
  {
    SquaredDistanceSymmetric(a, b);
  }

  /** The list of link lengths the distance loop builds by appending, one per
      target, from a particle at `from`. */
  function LinkLengths(from: Vec, to: seq<Vec>, sqrt: real -> real): (ds: seq<Float>)
    ensures |ds| == |to|
  {
    if to == [] then [] else LinkLengths(from, to[..|to| - 1], sqrt) + [LinkLength(from, to[|to| - 1], sqrt)]
  }

  lemma {:induction false} LinkLengthsAt(from: Vec, to: seq<Vec>, sqrt: real -> real, k: int)
    requires 0 <= k < |to|
    ensures LinkLengths(from, to, sqrt)[k] == LinkLength(from, to[k], sqrt)
  {
    if k < |to| - 1 {
      LinkLengthsAt(from, to[..|to| - 1], sqrt, k);
    }
  }

  /** The rest lengths the distance loop records for particle p: from its
      position to that of each of its neighbours. */
  function Lengths(p: Particle, sqrt: real -> real): (ds: seq<Float>)
    reads p`pos, p`padjs, p.padjs`pos
    ensures |ds| == |p.padjs|
  {
    LinkLengths(p.pos, Positions(p.padjs), sqrt)
  }

  /** The distance loop: appends to each particle's dadjs the distance from
      its position to the position of each of its padjs, in padjs order. */
  method RestDistances(ps: seq<Particle>, sqrt: real -> real)
    requires Distinct(ps)
    modifies ps`dadjs
    ensures forall t | 0 <= t < |ps| :: ps[t].dadjs == old(ps[t].dadjs) + Lengths(ps[t], sqrt)
  {
    var t := 0;
    while t < |ps|
      invariant 0 <= t <= |ps|
      invariant forall u | 0 <= u < t :: ps[u].dadjs == old(ps[u].dadjs) + Lengths(ps[u], sqrt)
      invariant forall u | t <= u < |ps| :: ps[u].dadjs == old(ps[u].dadjs)
    {
      MeasureLinks(ps[t], sqrt);
      t := t + 1;
    }
  }

  /** The inner distance loop for one particle p. */
  method MeasureLinks(p: Particle, sqrt: real -> real)
    modifies p`dadjs
    ensures p.dadjs == old(p.dadjs) + Lengths(p, sqrt)
  {
    ghost var before, targets, from := p.dadjs, p.padjs, p.pos;
    ghost var to := Positions(targets);
    var k := 0;
    while k < |p.padjs|
      invariant 0 <= k <= |to| && p.padjs == targets && p.pos == from
      invariant p.dadjs == before + LinkLengths(from, to[..k], sqrt)
    {
      var padj := p.padjs[k];
      var dist := LinkLength(p.pos, padj.pos, sqrt);
      PositionsAt(targets, k);
      assert to[..k + 1] == to[..k] + [padj.pos];
      LinkLengthsSnoc(from, to[..k], padj.pos, sqrt);
      p.dadjs := p.dadjs + [dist];
      k := k + 1;
    }
    assert to[..k] == to;
  }

  lemma LinkLengthsSnoc(from: Vec, to: seq<Vec>, v: Vec, sqrt: real -> real)
    ensures LinkLengths(from, to + [v], sqrt) == LinkLengths(from, to, sqrt) + [LinkLength(from, v, sqrt)]
  {
    assert (to + [v])[..|to|] == to;
  }

  // ---------------------------------------------------------------------
  // The whole construction

  /** Every particle of the grid holds its index and rest position and sits
      there at rest and unloaded. */
  ghost predicate AtRest(ps: seq<Particle>, numx: int, numy: int, lenx: real, leny: real)
    reads ps`i, ps`j, ps`x, ps`y, ps`pos1, ps`pos, ps`ut, ps`utt, ps`f, ps`fext
  {
    && |ps| == numx * numy
    && forall c | InGrid(numx, numy, c) ::
      && numx >= 2 && numy >= 2
      && ps[Slot(numx, numy, c)].Placed() == PlacedAt(numx, numy, lenx, leny, c)
      && ps[Slot(numx, numy, c)].ut == Zero && ps[Slot(numx, numy, c)].utt == Zero
      && ps[Slot(numx, numy, c)].f == Zero && ps[Slot(numx, numy, c)].fext == Zero
  }

  /** Every particle of the grid lists exactly its stencil neighbours. */
  ghost predicate Linked(ps: seq<Particle>, numx: int, numy: int)
    reads ps`padjs
  {
    && |ps| == numx * numy
    && forall c | InGrid(numx, numy, c) :: ps[Slot(numx, numy, c)].padjs == Neighbours(ps, numx, numy, c)
  }

  /** Every particle lists, in parallel with its neighbours, the distance to
      each of them. */
  ghost predicate Measured(ps: seq<Particle>, sqrt: real -> real)
    reads ps
  {
    && Closed(ps)
    && forall t | 0 <= t < |ps| :: ps[t].dadjs == Lengths(ps[t], sqrt)
  }

  /** Every neighbour of a particle of the list is itself in the list. */
  ghost predicate Closed(ps: seq<Particle>)
    reads ps`padjs
  {
    forall t, k | 0 <= t < |ps| && 0 <= k < |ps[t].padjs| :: ps[t].padjs[k] in ps
  }

  /** The lattice as the construction leaves it. */
  ghost predicate Built(ps: seq<Particle>, numx: int, numy: int, lenx: real, leny: real, sqrt: real -> real)
    reads ps
  {
    && Distinct(ps) && AtRest(ps, numx, numy, lenx, leny) && Linked(ps, numx, numy) && Measured(ps, sqrt)
  }

  /** The construction of the script once the grid size is known: create
      the particles, place them, connect them and measure the links. A grid of one
      column or one row stops with the division error placement raises. */
  method BuildLattice(numx: nat, numy: nat, size: real, lenx: real, leny: real, sqrt: real -> real)
    returns (ps: seq<Particle>, r: PlaceResult)
    ensures |ps| == numx * numy && Distinct(ps)
    ensures forall k | 0 <= k < |ps| :: fresh(ps[k]) && ps[k].size == size
    ensures r == ZeroDivisionError <==> numx > 0 && numy > 0 && (numx == 1 || numy == 1)
    ensures r == Placed ==> Built(ps, numx, numy, lenx, leny, sqrt)
  {
    ps := NewParticles(numx * numy, size);
    r := Place(ps, numx, numy, lenx, leny);
    if r == ZeroDivisionError {
      return;
    }
    Settled(ps, numx, numy, lenx, leny);
    Wire(ps, numx, numy, lenx, leny, sqrt);
  }

  /** Placed particles that have not moved are at rest. */
  lemma Settled(ps: seq<Particle>, numx: nat, numy: nat, lenx: real, leny: real)
    requires |ps| == numx * numy && (numx > 0 && numy > 0 ==> numx >= 2 && numy >= 2)
    requires forall c | InGrid(numx, numy, c) :: ps[Slot(numx, numy, c)].Placed() == PlacedAt(numx, numy, lenx, leny, c)
    requires forall t | 0 <= t < |ps| :: ps[t].ut == Zero && ps[t].utt == Zero && ps[t].f == Zero && ps[t].fext == Zero
    ensures AtRest(ps, numx, numy, lenx, leny)
  {
  }

  /** Connectivity followed by the distance pass, on placed particles that
      have no links yet. */
  method Wire(ps: seq<Particle>, numx: nat, numy: nat, lenx: real, leny: real, sqrt: real -> real)
    requires Distinct(ps) && AtRest(ps, numx, numy, lenx, leny)
    requires forall t | 0 <= t < |ps| :: ps[t].padjs == [] && ps[t].dadjs == []
    modifies ps`padjs, ps`dadjs
    ensures Built(ps, numx, numy, lenx, leny, sqrt)
  {
    Link(ps, numx, numy, lenx, leny);
    RestDistances(ps, sqrt);
  }

  /** The connectivity pass on placed particles that have no links yet. */
  method Link(ps: seq<Particle>, numx: nat, numy: nat, lenx: real, leny: real)
    requires Distinct(ps) && AtRest(ps, numx, numy, lenx, leny)
    requires forall t | 0 <= t < |ps| :: ps[t].padjs == []
    modifies ps`padjs
    ensures AtRest(ps, numx, numy, lenx, leny) && Linked(ps, numx, numy) && Closed(ps)
  {
    Connect(ps, numx, numy);
    assert Linked(ps, numx, numy);
    LinkedClosed(ps, numx, numy);
  }

  /** The neighbours the connectivity pass lists are particles of the list. */
  lemma LinkedClosed(ps: seq<Particle>, numx: nat, numy: nat)
    requires Linked(ps, numx, numy)
    ensures Closed(ps)
  {
    forall t, k | 0 <= t < |ps| && 0 <= k < |ps[t].padjs|
      ensures ps[t].padjs[k] in ps
    {
      SlotBijection(numx, numy);
      assert numx > 0;
      var c := CellAt(numx, t);
      assert ps[Slot(numx, numy, c)] == ps[t];
      assert ps[t].padjs[k] in Neighbours(ps, numx, numy, c);
    }
  }
}
