/** The particle record of the beam lattice: one lumped mass whose fields the
    simulation script updates in place. */
module Particles {
  import opened Floats

  /** The fields the placement loop writes: grid index, rest position, and
      committed and current position. */
  datatype Placement = Placement(i: int, j: int, x: real, y: real, pos1: Vec, pos: Vec)

  /** The fields the commit-and-clamp step writes. */
  datatype Motion = Motion(pos1: Vec, pos: Vec, ut: Vec)

  class Particle {
    /** Nominal spacing, the constructor's argument. */
    const size: real
    /** Grid index. */
    var i: int
    var j: int
    /** Adjacent particles and, in parallel, their rest distances. */
    var padjs: seq<Particle>
    var dadjs: seq<Float>
    /** Rest position. */
    var x: real
    var y: real
    /** Position committed at the end of the previous step (`pos_1`). */
    var pos1: Vec
    /** Current position, velocity, acceleration. */
    var pos: Vec
    var ut: Vec
    var utt: Vec
    /** Net force of this step and the external load. */
    var f: Vec
    var fext: Vec

    function Placed(): Placement
      reads this`i, this`j, this`x, this`y, this`pos1, this`pos
    {
      Placement(i, j, x, y, pos1, pos)
    }

    function Moving(): Motion
      reads this`pos1, this`pos, this`ut
    {
      Motion(pos1, pos, ut)
    }

    /** The rest position (x, y), where placement puts the particle and
        where clamping returns it. */
    function Rest(): (v: Vec)
      reads this`x, this`y
      ensures !AnyNaN(v)
    {
      Vec(Num(x), Num(y))
    }

    /** The state a particle is created in: index (0, 0), no neighbours, at
        the origin, at rest and unloaded. */
    ghost predicate Initial()
      reads this
      ensures Initial() ==> pos1 == pos && !AnyNaN(pos)
    {
      && i == 0 && j == 0 && padjs == [] && dadjs == [] && x == 0.0 && y == 0.0
      && pos1 == Zero && pos == Zero && ut == Zero && utt == Zero && f == Zero && fext == Zero
    }

    constructor (size: real)
      ensures this.size == size
      ensures Initial()
    {
      this.size := size;
      i, j := 0, 0;
      padjs, dadjs := [], [];
      x, y := 0.0, 0.0;
      pos1, pos := Zero, Zero;
      ut, utt := Zero, Zero;
      f, fext := Zero, Zero;
    }
  }
}
