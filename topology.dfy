/** What the construction guarantees about the finished lattice: every
    particle records its own grid index, lists exactly its in-grid
    8-neighbours, each once, symmetrically, and holds in parallel the rest
    length of each link. */
module Topology {
  import opened Floats
  import opened Grid
  import opened Particles
  import opened Lattice

  /** Every particle's recorded index (i, j) is a grid cell whose slot holds
      that very particle: placement is a bijection onto the list. */
  lemma IndexPointsBack(ps: seq<Particle>, numx: nat, numy: nat, lenx: real, leny: real)
    requires AtRest(ps, numx, numy, lenx, leny)
    ensures forall t | 0 <= t < |ps| ::
      InGrid(numx, numy, Cell(ps[t].i, ps[t].j)) && Slot(numx, numy, Cell(ps[t].i, ps[t].j)) == t
  {
    forall t | 0 <= t < |ps|
      ensures InGrid(numx, numy, Cell(ps[t].i, ps[t].j)) && Slot(numx, numy, Cell(ps[t].i, ps[t].j)) == t
    {
      SlotSurjective(numx, numy, t);
      var c := CellAt(numx, t);
      assert ps[Slot(numx, numy, c)].Placed() == PlacedAt(numx, numy, lenx, leny, c);
    }
  }

  /** The particle of cell d is listed by the particle of cell c exactly when
      the two cells are 8-neighbours. */
  lemma NeighboursExact(ps: seq<Particle>, numx: int, numy: int, c: Cell, d: Cell)
    requires Distinct(ps) && Linked(ps, numx, numy)
    requires InGrid(numx, numy, c) && InGrid(numx, numy, d)
    ensures ps[Slot(numx, numy, d)] in ps[Slot(numx, numy, c)].padjs <==> Adjacent(c, d)
  {
    var cs := Stencil(numx, numy, c);
    NeighboursStencil(ps, numx, numy, c);
    var padjs := ps[Slot(numx, numy, c)].padjs;
    assert padjs == Pick(ps, numx, numy, cs);
    if Adjacent(c, d) {
      StencilComplete(numx, numy, c, d);
      var k :| 0 <= k < |cs| && cs[k] == d;
      assert padjs[k] == ps[Slot(numx, numy, d)];
    }
    if ps[Slot(numx, numy, d)] in padjs {
      var k :| 0 <= k < |padjs| && padjs[k] == ps[Slot(numx, numy, d)];
      assert cs[k] in cs;
      assert ps[Slot(numx, numy, cs[k])] == ps[Slot(numx, numy, d)];
      SlotInjective(numx, numy, cs[k], d);
    }
  }

  /** Links are symmetric: c lists d exactly when d lists c. */
  lemma NeighboursSymmetric(ps: seq<Particle>, numx: int, numy: int, c: Cell, d: Cell)
    requires Distinct(ps) && Linked(ps, numx, numy)
    requires InGrid(numx, numy, c) && InGrid(numx, numy, d)
    ensures ps[Slot(numx, numy, d)] in ps[Slot(numx, numy, c)].padjs <==>
            ps[Slot(numx, numy, c)] in ps[Slot(numx, numy, d)].padjs
  {
    NeighboursExact(ps, numx, numy, c, d);
    NeighboursExact(ps, numx, numy, d, c);
  }

  /** Every listed neighbour is a particle of the list, other than the
      particle itself, whose recorded index is an in-grid 8-neighbour of c. */
  lemma NeighboursSound(ps: seq<Particle>, numx: int, numy: int, lenx: real, leny: real, c: Cell)
    requires Distinct(ps) && AtRest(ps, numx, numy, lenx, leny) && Linked(ps, numx, numy)
    requires InGrid(numx, numy, c)
    ensures forall q | q in ps[Slot(numx, numy, c)].padjs ::
      && InGrid(numx, numy, Cell(q.i, q.j)) && Adjacent(c, Cell(q.i, q.j))
      && q == ps[Slot(numx, numy, Cell(q.i, q.j))] && q != ps[Slot(numx, numy, c)]
  {
    var p := ps[Slot(numx, numy, c)];
    var cs := Stencil(numx, numy, c);
    NeighboursStencil(ps, numx, numy, c);
    assert p.padjs == Pick(ps, numx, numy, cs);
    forall q | q in p.padjs
      ensures && InGrid(numx, numy, Cell(q.i, q.j)) && Adjacent(c, Cell(q.i, q.j))
              && q == ps[Slot(numx, numy, Cell(q.i, q.j))] && q != p
    {
      var k :| 0 <= k < |p.padjs| && p.padjs[k] == q;
      var d := cs[k];
      assert d in cs;
      assert q == ps[Slot(numx, numy, d)];
      assert q.Placed() == PlacedAt(numx, numy, lenx, leny, d);
      assert Cell(q.i, q.j) == d;
      if Slot(numx, numy, d) == Slot(numx, numy, c) {
        SlotInjective(numx, numy, d, c);
      }
    }
  }

  /** No particle is listed twice. */
  lemma NeighboursOnce(ps: seq<Particle>, numx: int, numy: int, c: Cell)
    requires Distinct(ps) && Linked(ps, numx, numy) && InGrid(numx, numy, c)
    ensures forall a, b | 0 <= a < b < |ps[Slot(numx, numy, c)].padjs| ::
      ps[Slot(numx, numy, c)].padjs[a] != ps[Slot(numx, numy, c)].padjs[b]
  {
    var padjs := ps[Slot(numx, numy, c)].padjs;
    var cs := Stencil(numx, numy, c);
    NeighboursStencil(ps, numx, numy, c);
    StencilNoDuplicates(numx, numy, c);
    forall a, b | 0 <= a < b < |padjs|
      ensures padjs[a] != padjs[b]
    {
      assert cs[a] in cs && cs[b] in cs;
      PickedApart(ps, numx, numy, cs[a], cs[b]);
    }
  }

  /** Distinct grid cells hold distinct particles. */
  lemma PickedApart(ps: seq<Particle>, numx: int, numy: int, c: Cell, d: Cell)
    requires Distinct(ps) && |ps| == numx * numy
    requires InGrid(numx, numy, c) && InGrid(numx, numy, d) && c != d
    ensures ps[Slot(numx, numy, c)] != ps[Slot(numx, numy, d)]
  {
    if Slot(numx, numy, c) == Slot(numx, numy, d) {
      SlotInjective(numx, numy, c, d);
    }
  }

  /** The number of neighbours: every existing column of i-1..i+1 times every
      existing row of j-1..j+1, less the particle itself; on a grid of at
      least 2 x 2 that is 8 inside, 5 on an edge and 3 at a corner. */
  lemma NeighbourCount(ps: seq<Particle>, numx: int, numy: int, c: Cell)
    requires Linked(ps, numx, numy) && InGrid(numx, numy, c)
    ensures |ps[Slot(numx, numy, c)].padjs| == Span(c.i, numx) * Span(c.j, numy) - 1
    ensures numx >= 2 && numy >= 2 ==>
      && (0 < c.i < numx - 1 && 0 < c.j < numy - 1 ==> |ps[Slot(numx, numy, c)].padjs| == 8)
      && ((0 < c.i < numx - 1) != (0 < c.j < numy - 1) ==> |ps[Slot(numx, numy, c)].padjs| == 5)
      && ((c.i == 0 || c.i == numx - 1) && (c.j == 0 || c.j == numy - 1) ==> |ps[Slot(numx, numy, c)].padjs| == 3)
  {
    NeighboursStencil(ps, numx, numy, c);
    StencilCount(numx, numy, c);
    if numx >= 2 && numy >= 2 {
      StencilDegree(numx, numy, c);
    }
  }

  /** dadjs runs parallel to padjs: entry k is the length of the link to
      padjs[k]. */
  lemma RestLengthsParallel(ps: seq<Particle>, sqrt: real -> real, t: int)
    requires Measured(ps, sqrt) && 0 <= t < |ps|
    ensures |ps[t].dadjs| == |ps[t].padjs|
    ensures forall k | 0 <= k < |ps[t].padjs| :: ps[t].dadjs[k] == LinkLength(ps[t].pos, ps[t].padjs[k].pos, sqrt)
  {
    forall k | 0 <= k < |ps[t].padjs|
      ensures ps[t].dadjs[k] == LinkLength(ps[t].pos, ps[t].padjs[k].pos, sqrt)
    {
      PositionsAt(ps[t].padjs, k);
      LinkLengthsAt(ps[t].pos, Positions(ps[t].padjs), sqrt, k);
    }
  }

  /** Both ends of a link record the same rest length for it. */
  lemma RestLengthsSymmetric(ps: seq<Particle>, sqrt: real -> real, t: int, u: int, k: int, m: int)
    requires Measured(ps, sqrt) && 0 <= t < |ps| && 0 <= u < |ps|
    requires 0 <= k < |ps[t].padjs| && ps[t].padjs[k] == ps[u]
    requires 0 <= m < |ps[u].padjs| && ps[u].padjs[m] == ps[t]
    ensures ps[t].dadjs[k] == ps[u].dadjs[m]
  {
    RestLengthsParallel(ps, sqrt, t);
    RestLengthsParallel(ps, sqrt, u);
    LinkLengthSymmetric(ps[t].pos, ps[u].pos, sqrt);
  }

  /** A particle at rest sits at its rest position. */
  lemma AtRestPosition(ps: seq<Particle>, numx: nat, numy: nat, lenx: real, leny: real, t: int)
    requires AtRest(ps, numx, numy, lenx, leny) && 0 <= t < |ps|
    ensures ps[t].pos == ps[t].Rest()
  {
    SlotSurjective(numx, numy, t);
    var c := CellAt(numx, t);
    assert ps[Slot(numx, numy, c)].Placed() == PlacedAt(numx, numy, lenx, leny, c);
  }

  /** Every listed neighbour is one of the particles of the lattice. */
  lemma ListedInLattice(ps: seq<Particle>, numx: nat, numy: nat, t: int)
    requires Linked(ps, numx, numy) && 0 <= t < |ps|
    ensures forall q | q in ps[t].padjs :: q in ps
  {
    SlotSurjective(numx, numy, t);
    var c := CellAt(numx, t);
    var cs := Stencil(numx, numy, c);
    NeighboursStencil(ps, numx, numy, c);
    forall q | q in ps[t].padjs
      ensures q in ps
    {
      var k :| 0 <= k < |ps[t].padjs| && ps[t].padjs[k] == q;
      assert cs[k] in cs;
      assert q == ps[Slot(numx, numy, cs[k])];
    }
  }

  /** In the lattice as built, every rest length is the length of the link
      between the rest positions of its two ends, and so a number. */
  lemma RestLengthsAtRest(ps: seq<Particle>, numx: nat, numy: nat, lenx: real, leny: real, sqrt: real -> real)
    requires Built(ps, numx, numy, lenx, leny, sqrt)
    ensures forall t | 0 <= t < |ps| :: |ps[t].dadjs| == |ps[t].padjs|
    ensures forall t, k | 0 <= t < |ps| && 0 <= k < |ps[t].dadjs| ::
      && ps[t].dadjs[k] == LinkLength(ps[t].Rest(), ps[t].padjs[k].Rest(), sqrt)
      && ps[t].dadjs[k].Num?
  {
    forall t | 0 <= t < |ps|
      ensures |ps[t].dadjs| == |ps[t].padjs|
    {
      RestLengthsParallel(ps, sqrt, t);
    }
    forall t, k | 0 <= t < |ps| && 0 <= k < |ps[t].dadjs|
      ensures && ps[t].dadjs[k] == LinkLength(ps[t].Rest(), ps[t].padjs[k].Rest(), sqrt)
              && ps[t].dadjs[k].Num?
    {
      RestLengthsParallel(ps, sqrt, t);
      ListedInLattice(ps, numx, numy, t);
      assert ps[t].padjs[k] in ps[t].padjs;
      var u :| 0 <= u < |ps| && ps[u] == ps[t].padjs[k];
      AtRestPosition(ps, numx, numy, lenx, leny, t);
      AtRestPosition(ps, numx, numy, lenx, leny, u);
    }
  }
}
