# beam2d: the particle lattice and its end-of-step commit

`scratch/beam2d.py` simulates a cantilevered beam as a 2-D lattice of point
masses joined by axial springs. This project models the discrete part of
that script and proves properties of it:

- the particle record `P`, whose fields the script updates in place
  (`Particles.Particle`, a class);
- the construction of the lattice, written imperatively:
  - creating the particle list;
  - placing particle (i, j), stored in the list at `j*numx + i`, at its
    rest position on the grid;
  - linking each particle to its in-grid neighbours in the fixed
    8-direction stencil order;
  - recording the rest length of every link in parallel with the link list;
- the end-of-step loop, also imperative: it aborts with `RuntimeError` at
  the first particle whose position holds a NaN. Before that, it commits
  each position as `pos_1` and clamps the particles of the first column
  (i == 0) back to their rest position with their velocity scaled by zero.

Floats are exact reals or NaN (`Floats.Float`). NaN propagates through
subtraction, addition, squaring and scaling. A NaN times zero stays NaN.

The square root in `** 0.5` is a parameter `sqrt: real -> real`. The
grid size (`numx`, `numy`) and the spans (`lenx`, `leny`) are parameters
too. The script's `psdict[i][j]` is the list element at `Grid.Slot`,
which is the index the script stores there.

What is proved:

- Placement:
  - it raises exactly on a non-empty grid of one column or one row;
  - otherwise every particle gets its index and its rest position;
  - the slot map is a bijection, so every particle's recorded index leads
    back to that particle;
  - the first and last columns and rows sit at 0 and at the span.
- Neighbours:
  - every particle lists exactly the particles of its in-grid 8-neighbours,
    in stencil order, each once, never itself;
  - links are symmetric;
  - there are 8, 5 or 3 neighbours (inside, on an edge, at a corner).
- Rest lengths: `dadjs` runs parallel to `padjs`, and each entry is the
  length of the link between the two rest positions. Both ends agree on
  it, and it is never NaN.
- Commit: the NaN check stops at the first NaN position and commits
  exactly the particles before it. A run that completes leaves
  `pos_1 == pos` everywhere with no NaN, and the first column at its rest
  position, with `ut` zeroed when it held no NaN.

Where the code does less than one might expect, the model follows the
code:

- Clamping zeroes the velocity by `ut *= 0`, which leaves a NaN velocity
  NaN. The model keeps that: `ut` is zero after clamping exactly when it
  held no NaN.
- A one-column or one-row grid is not rejected up front. The placement loop
  raises `ZeroDivisionError` at the first particle. When `numx >= 2`, that
  particle's `x` has already been written by then.
- The neighbour loop does not skip duplicates: it checks bounds only. The
  model proves that the stencil never produces a duplicate.

## Model

| member | source | states |
|---|---|---|
| Particles.Particle.constructor | scratch/beam2d.py:18-45 | a new particle keeps its size and starts at index (0, 0), with no links or rest lengths, at the origin, with zero position, velocity, acceleration, force and load |
| Particles.Particle.Initial | scratch/beam2d.py:20-45 | the state the constructor leaves: index (0, 0), no links or rest lengths, rest position (0, 0), and zero position, committed position, velocity, acceleration, force and load; such a particle has pos_1 == pos with no NaN |
| Particles.Particle.Rest | scratch/beam2d.py:169-170 | the rest position (x, y) that clamping restores never holds a NaN |
| Floats.AnyNaN | scratch/beam2d.py:161 | a vector holds a NaN exactly when either coordinate is NaN; the zero vector never does |
| Floats.Sub | scratch/beam2d.py:99 | a difference is NaN exactly when an operand is |
| Floats.Add | scratch/beam2d.py:99 | a sum is NaN exactly when an operand is |
| Floats.Square | scratch/beam2d.py:99 | a square is NaN exactly when its operand is, and otherwise non-negative |
| Floats.Scale | scratch/beam2d.py:171 | a scaled vector holds a NaN exactly when the original does |
| Floats.ScaleByZero | scratch/beam2d.py:171 | `ut *= 0` gives the zero vector exactly when ut holds no NaN |
| Floats.SquaredDistance | scratch/beam2d.py:99 | the squared distance is NaN exactly when either position holds a NaN, is otherwise non-negative, and is zero between equal positions |
| Floats.SquaredDistanceSymmetric | scratch/beam2d.py:99 | the squared distance does not depend on the direction of the link |
| Floats.Root | scratch/beam2d.py:99 | `** 0.5` is NaN exactly when its operand is |
| Lattice.NewParticles | scratch/beam2d.py:60 | the list holds count fresh, pairwise distinct particles, each in the initial state with the given size |
| Lattice.RestCoord | scratch/beam2d.py:69-70 | index 0 sits at 0, index num-1 at the full span, and every index in between stays within [0, span] |
| Lattice.RestCoordSpacing | scratch/beam2d.py:69-70 | consecutive rest coordinates are len/(num-1) apart |
| Lattice.PlacedAt | scratch/beam2d.py:67-74 | a placed particle records its own cell as (i, j); its pos and pos_1 both equal (x, y); the first and last column and row sit at 0 and at lenx or leny |
| Lattice.Place | scratch/beam2d.py:63-74 | raises exactly when the grid is non-empty with one column or one row; otherwise every cell's particle is placed; on error only the first particle's x may have changed |
| Lattice.PlaceColumn | scratch/beam2d.py:66-74 | places every particle of column i and no other particle, or raises at the column's first particle |
| Lattice.PlaceCell | scratch/beam2d.py:67-74 | places the particle of one cell and leaves every other particle alone; it raises exactly when numx or numy is 1, after writing x when numx >= 2 |
| Lattice.PlaceRest | scratch/beam2d.py:70-74 | writes y, pos, pos_1, i and j of one particle and nothing else |
| Grid.Slot | scratch/beam2d.py:67 | the slot j*numx + i of an in-grid cell lies inside the list |
| Grid.SlotInjective | scratch/beam2d.py:67 | two cells with the same slot are the same cell |
| Grid.SlotSurjective | scratch/beam2d.py:67 | every slot of the list is the slot of an in-grid cell |
| Grid.SlotBijection | scratch/beam2d.py:63-68 | the slot map is a bijection between the grid and the list indices |
| Grid.Stencil | scratch/beam2d.py:77-95 | every cell the connectivity loop visits for c is in the grid and is an 8-neighbour of c |
| Grid.Sides | scratch/beam2d.py:80-91 | the side-column cells are in-grid 8-neighbours in another column |
| Grid.Column | scratch/beam2d.py:81-85 | the cells of one side column lie in that column within one row of c |
| Grid.Ends | scratch/beam2d.py:92-95 | the cells below and above are in-grid 8-neighbours in c's own column |
| Grid.ColumnOffsets | scratch/beam2d.py:81-91 | each side column contributes three offsets, all in that column |
| Grid.InBounds | scratch/beam2d.py:77-95 | reference definition: the in-grid cells among c shifted by the offsets, in offset order, never more than the offsets |
| Grid.InBoundsInGrid | scratch/beam2d.py:77-95 | every cell that filter keeps is in the grid |
| Grid.StencilOrder | scratch/beam2d.py:80-95 | the loop visits exactly the in-grid cells of the order (-1,0), (-1,-1), (-1,1), (1,0), (1,-1), (1,1), (0,-1), (0,1) |
| Grid.SidesOrder | scratch/beam2d.py:80-91 | the six side offsets give exactly the side-column cells, in order |
| Grid.EndsOrder | scratch/beam2d.py:92-95 | the last two offsets give exactly the cells below and above, in order |
| Grid.ColumnOrder | scratch/beam2d.py:80-85 | one side column's three offsets give that column's cells, or none when the column is off the grid |
| Grid.InBoundsAppend | scratch/beam2d.py:77-95 | filtering a concatenation of offsets concatenates the filtered parts |
| Grid.Span | scratch/beam2d.py:80-95 | 1 to 3 rows or columns exist around k, 3 exactly inside, 1 exactly on an extent of 1 |
| Grid.StencilComplete | scratch/beam2d.py:77-95 | every in-grid 8-neighbour of c is visited |
| Grid.ColumnComplete | scratch/beam2d.py:81-85 | every in-grid cell of a side column within one row of c is visited |
| Grid.StencilNoDuplicates | scratch/beam2d.py:77-95 | no cell is visited twice |
| Grid.EndsNoDuplicates | scratch/beam2d.py:92-95 | below and above are distinct |
| Grid.SidesEndsDisjoint | scratch/beam2d.py:80-95 | the side-column cells and the own-column cells do not overlap |
| Grid.SidesNoDuplicates | scratch/beam2d.py:80-91 | no side-column cell is visited twice |
| Grid.ColumnNoDuplicates | scratch/beam2d.py:81-85 | no cell of one side column is visited twice |
| Grid.AppendNoDuplicates | scratch/beam2d.py:80-95 | two duplicate-free, disjoint lists concatenate without duplicates |
| Grid.StencilCount | scratch/beam2d.py:77-95 | the number of cells visited is the rows times the columns around c, less c itself |
| Grid.StencilDegree | scratch/beam2d.py:77-95 | on a grid of at least 2 x 2: 8 cells inside, 5 on an edge, 3 at a corner |
| Grid.StencilSymmetric | scratch/beam2d.py:77-95 | d is visited for c exactly when c is visited for d |
| Lattice.Neighbours | scratch/beam2d.py:77-95 | reference neighbour list of cell c: the particles of the in-grid cells among c shifted by the fixed offsets, in offset order; at most 8 |
| Lattice.SideNeighbours | scratch/beam2d.py:80-91 | the neighbours in the left column followed by those in the right column; at most 6 |
| Lattice.Side | scratch/beam2d.py:80-91 | the particles of column ci in c's row, below and above, or none when column ci is off the grid; at most 3 |
| Lattice.EndNeighbours | scratch/beam2d.py:92-95 | the particle below c when c is not in the first row, then the one above when c is not in the last row; at most 2 |
| Lattice.Pick | scratch/beam2d.py:79-95 | the psdict lookups give one particle per cell |
| Lattice.PickAppend | scratch/beam2d.py:79-95 | looking up a concatenation of cells concatenates the lookups |
| Lattice.Connect | scratch/beam2d.py:77-95 | every particle's padjs gets its neighbour list appended |
| Lattice.ConnectColumn | scratch/beam2d.py:78-95 | the particles of column i get their neighbours appended, and no other particle changes |
| Lattice.ConnectCell | scratch/beam2d.py:79-95 | the particle of one cell gets its neighbours appended, and no other particle changes |
| Lattice.LinkStencil | scratch/beam2d.py:80-95 | one particle gets exactly the neighbour list of its cell appended |
| Lattice.LinkSides | scratch/beam2d.py:80-91 | one particle gets the left column's neighbours appended, then the right column's |
| Lattice.LinkSide | scratch/beam2d.py:80-91 | one column's neighbours are appended, or nothing when that column is off the grid |
| Lattice.LinkEnds | scratch/beam2d.py:92-95 | the neighbours below and above are appended |
| Lattice.NeighboursHalves | scratch/beam2d.py:80-95 | the neighbour list is the side-column neighbours followed by below and above |
| Lattice.NeighboursStencil | scratch/beam2d.py:77-95 | the neighbour list is the particles of the visited cells, in visiting order |
| Lattice.SidesPick | scratch/beam2d.py:80-91 | the side-column cells give the side-column neighbours |
| Lattice.EndsPick | scratch/beam2d.py:92-95 | the cells below and above give the neighbours below and above |
| Lattice.Positions | scratch/beam2d.py:99 | gives one position per particle |
| Lattice.PositionsAt | scratch/beam2d.py:99 | entry k is the position of particle k |
| Lattice.LinkLength | scratch/beam2d.py:99 | a link's length is NaN exactly when either end's position holds a NaN |
| Lattice.LinkLengthSymmetric | scratch/beam2d.py:99 | a link has the same length in both directions |
| Lattice.LinkLengths | scratch/beam2d.py:98-100 | gives one length per neighbour |
| Lattice.LinkLengthsAt | scratch/beam2d.py:98-100 | entry k is the length of the link to neighbour k |
| Lattice.LinkLengthsSnoc | scratch/beam2d.py:98-100 | one more neighbour appends one more length |
| Lattice.Lengths | scratch/beam2d.py:98-100 | a particle gets one rest length per listed neighbour |
| Lattice.RestDistances | scratch/beam2d.py:97-100 | every particle's dadjs gets the lengths of its links appended, in padjs order |
| Lattice.MeasureLinks | scratch/beam2d.py:98-100 | one particle's dadjs gets the length of the link to each of its padjs appended |
| Lattice.BuildLattice | scratch/beam2d.py:60-100 | the new particles raise exactly on a non-empty grid of one column or row; otherwise they end at rest, linked to their stencil neighbours, with measured links |
| Lattice.Settled | scratch/beam2d.py:40-45 | particles that are placed and not yet moved or loaded are at rest |
| Lattice.Wire | scratch/beam2d.py:77-100 | on placed particles with no links, connectivity then measurement leave the lattice built |
| Lattice.Link | scratch/beam2d.py:77-95 | on placed particles with no links, connectivity leaves every particle listing its neighbours, all within the list |
| Lattice.LinkedClosed | scratch/beam2d.py:77-95 | every listed neighbour is a particle of the list |
| Topology.IndexPointsBack | scratch/beam2d.py:63-74 | every particle's recorded (i, j) is an in-grid cell whose slot is that particle's own index |
| Topology.NeighboursExact | scratch/beam2d.py:77-95 | cell c lists the particle of cell d exactly when c and d are 8-neighbours |
| Topology.NeighboursSymmetric | scratch/beam2d.py:77-95 | c lists d exactly when d lists c |
| Topology.NeighboursSound | scratch/beam2d.py:77-95 | every listed particle is not the particle itself; its recorded index is an in-grid 8-neighbour whose slot holds it |
| Topology.NeighboursOnce | scratch/beam2d.py:77-95 | no particle is listed twice |
| Topology.PickedApart | scratch/beam2d.py:67-68 | distinct cells hold distinct particles |
| Topology.NeighbourCount | scratch/beam2d.py:77-95 | a particle has (rows x columns around it) - 1 neighbours: 8 inside, 5 on an edge, 3 at a corner |
| Topology.RestLengthsParallel | scratch/beam2d.py:97-100 | dadjs is as long as padjs, and entry k is the length of the link to padjs[k] |
| Topology.RestLengthsSymmetric | scratch/beam2d.py:97-100 | both ends of a link record the same rest length |
| Topology.AtRestPosition | scratch/beam2d.py:71 | a placed particle's position is its rest position |
| Topology.ListedInLattice | scratch/beam2d.py:77-95 | every listed neighbour is a particle of the list |
| Topology.RestLengthsAtRest | scratch/beam2d.py:97-100 | in the lattice as built, every rest length is the link's length between the rest positions of its ends, and is a number |
| Commit.Check | scratch/beam2d.py:160-163 | the loop completes exactly when no position holds a NaN; otherwise it raises at the first one |
| Commit.CommitOne | scratch/beam2d.py:165-171 | pos_1 equals pos afterwards; a first-column particle goes back to rest with ut zeroed exactly when ut held no NaN; any other particle keeps pos and ut |
| Commit.CommitIdempotent | scratch/beam2d.py:165-171 | committing a committed particle again changes nothing |
| Commit.CommitParticle | scratch/beam2d.py:165-171 | one particle's pos_1, pos and ut become its committed and clamped state |
| Commit.CommitAndClamp | scratch/beam2d.py:160-171 | raises at the first NaN position, committing and clamping exactly the particles before it and leaving the rest alone; a full run leaves pos_1 == pos with no NaN and the first column at its rest position |

## Left out

- Force assembly and integration (scratch/beam2d.py:111-153) are not modelled. That covers the external load set at line 115, the predictor, the spring reactions, velocity and position updates, and the work total. They are floating-point dynamics.
- The loop over `n` steps of size `dt` (lines 112-117) is not modelled. The commit-and-clamp loop is modelled for one step, on whatever positions and velocities the step produced.
- Plotting (lines 102-109 and 173-187), every `print`, and `__str__`/`__repr__` (lines 47-51) are output only.
- The material constants and the mass (`rho`, `E`, `nu`, `h`, `A`, `m` at lines 19, 29-34) feed only the left-out force assembly.
- The grid size from `int(lenx/size)` and the spans and spacing (lines 55-59) are left out. `numx` and `numy` are parameters of the model instead.
- The `cKDTree` import (line 4) is never used.
- `psdict` is not modelled as a dictionary. Each lookup `psdict[i][j]` is the list element at `Grid.Slot`, which is what lines 67-68 store.
- Lattice.LinkLength: the square root is a parameter. The model therefore does not state that a rest length numerically equals the Euclidean distance, only that it is the root of the squared distance.
- Lattice.Place, Lattice.BuildLattice: numx and numy are taken as non-negative, as `int(lenx/size)` is for positive spans and spacing. With both negative the script would create particles (line 60) that its empty placement and connectivity loops never reach; the model does not cover that case.
- Floats: infinities, rounding and float-to-int conversion are not modelled. Floats are exact reals or NaN.
- Particles.Particle.constructor: the fields `rho`, `E`, `nu`, `h`, `A` and `m` are not modelled, since nothing in this model reads them.
