/** The end of a time step: every particle in list order is checked for a
    NaN position, which aborts the run; otherwise its position is committed
    as `pos_1`, and the particles of the first column (i == 0) are clamped
    back to their rest position with their velocity zeroed. */
module Commit {
  import opened Floats
  import opened Particles
  import opened Lattice

  /** How the commit loop ends: it runs through, or raises `RuntimeError` at
      the particle with index `at` of the list. */
  datatype CommitResult = Committed | RuntimeError(at: nat)

  /** The outcome the NaN checks decide for the given positions, in list
      order: the first position with a NaN coordinate aborts. */
  function Check(poss: seq<Vec>): (r: CommitResult)
    ensures r == Committed <==> forall t | 0 <= t < |poss| :: !AnyNaN(poss[t])
    ensures r.RuntimeError? ==>
      && r.at < |poss| && AnyNaN(poss[r.at])
      && forall t | 0 <= t < r.at :: !AnyNaN(poss[t])
  {
    if poss == [] then Committed
    else if AnyNaN(poss[0]) then RuntimeError(0)
    else match Check(poss[1..])
      case Committed => Committed
      case RuntimeError(k) => RuntimeError(k + 1)
  }

  /** The number of particles the loop commits before it ends. */
  function Reached(r: CommitResult, count: nat): (n: nat) {
    if r.RuntimeError? then r.at else count
  }

  /** The update of one particle that passed the NaN check: its position is
      committed; a first-column particle is put back at rest with its
      velocity scaled by zero, which clears it unless it holds a NaN. */
  function CommitOne(m: Motion, i: int, rest: Vec): (r: Motion)
    ensures r.pos1 == r.pos
    ensures i == 0 ==> r.pos == rest && (r.ut == Zero <==> !AnyNaN(m.ut))
    ensures i != 0 ==> r.pos == m.pos && r.ut == m.ut
  {
    ScaleByZero(m.ut);
    if i == 0 then Motion(rest, rest, Scale(m.ut, 0.0)) else Motion(m.pos, m.pos, m.ut)
  }

  /** Committing an already committed particle changes nothing. */
  lemma CommitIdempotent(m: Motion, i: int, rest: Vec)
    ensures CommitOne(CommitOne(m, i, rest), i, rest) == CommitOne(m, i, rest)
  {
    if i == 0 {
      var ut := Scale(m.ut, 0.0);
      assert Scale(ut, 0.0) == ut;
    }
  }

  /** The body of the commit loop for one particle that passed the check. */
  method CommitParticle(p: Particle)
    modifies p`pos1, p`pos, p`ut
    ensures p.Moving() == CommitOne(old(p.Moving()), p.i, p.Rest())
  {
    p.pos1 := p.pos;
    if p.i == 0 {
      p.pos := p.Rest();
      p.pos1 := p.Rest();
      p.ut := Scale(p.ut, 0.0);
    }
  }

  /** The commit-and-clamp loop over all particles, in list order. */
  method CommitAndClamp(ps: seq<Particle>) returns (r: CommitResult)
    requires Distinct(ps)
    modifies ps`pos1, ps`pos, ps`ut
    ensures r == Check(old(Positions(ps)))
    ensures forall t | 0 <= t < Reached(r, |ps|) ::
      ps[t].Moving() == CommitOne(old(ps[t].Moving()), ps[t].i, ps[t].Rest())
    ensures forall t | Reached(r, |ps|) <= t < |ps| :: ps[t].Moving() == old(ps[t].Moving())
    ensures r == Committed ==> forall t | 0 <= t < |ps| ::
      && ps[t].pos1 == ps[t].pos && !AnyNaN(ps[t].pos)
      && (ps[t].i == 0 ==> ps[t].pos == ps[t].Rest())
  {
    ghost var poss := Positions(ps);
    forall t | 0 <= t < |ps|
      ensures poss[t] == ps[t].pos
    {
      PositionsAt(ps, t);
    }
    var t := 0;
    while t < |ps|
      invariant 0 <= t <= |ps|
      invariant forall u | 0 <= u < t :: !AnyNaN(poss[u])
      invariant forall u | 0 <= u < t ::
        ps[u].Moving() == CommitOne(old(ps[u].Moving()), ps[u].i, ps[u].Rest())
      invariant forall u | t <= u < |ps| :: ps[u].Moving() == old(ps[u].Moving())
    {
      var p := ps[t];
      if AnyNaN(p.pos) {
        return RuntimeError(t);
      }
      CommitParticle(p);
      forall u | 0 <= u <= t
        ensures ps[u].Moving() == CommitOne(old(ps[u].Moving()), ps[u].i, ps[u].Rest())
      {
        if u == t { assert ps[u] == p; }
      }
      t := t + 1;
    }
    r := Committed;
  }
}
