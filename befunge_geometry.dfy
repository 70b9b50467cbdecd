/** Positions and directions of the Befunge-93 instruction pointer: the `Direction`
    enum, the `Coord` pair of unsigned integers, and "coordinate + direction", the
    single primitive by which the pointer moves. */
module BefungeGeometry {

  datatype Direction = Left | Down | Up | Right

  /** A grid position: column `x`, row `y`, both unsigned. */
  datatype Coord = Coord(x: nat, y: nat)

  /** `Coord::new()`: the top-left cell, where execution starts. */
  const Origin: Coord := Coord(0, 0)

  /** Column change of one step, as a vector: the reference for `Advance`. */
  function DeltaX(d: Direction): int {
    match d
    case Left => -1
    case Right => 1
    case _ => 0
  }

  /** Row change of one step (rows grow downwards). */
  function DeltaY(d: Direction): int {
    match d
    case Up => -1
    case Down => 1
    case _ => 0
  }

  /** The unsigned subtraction of `Coord + Direction` underflows exactly when
      moving left from column 0 or up from row 0. */
  predicate CanAdvance(c: Coord, d: Direction) {
    !(d == Left && c.x == 0) && !(d == Up && c.y == 0)
  }

  /** `Coord + Direction`: one step in direction `d`. */
  function Advance(c: Coord, d: Direction): (r: Coord)
    requires CanAdvance(c, d)
    ensures r.x == c.x + DeltaX(d) && r.y == c.y + DeltaY(d)
  {
    match d
    case Left => Coord(c.x - 1, c.y)
    case Down => Coord(c.x, c.y + 1)
    case Up => Coord(c.x, c.y - 1)
    case Right => Coord(c.x + 1, c.y)
  }

  /** The step cannot underflow exactly when the moved coordinate stays non-negative. */
  lemma CanAdvanceIffNonNegative(c: Coord, d: Direction)
    ensures CanAdvance(c, d) <==> (c.x + DeltaX(d) >= 0 && c.y + DeltaY(d) >= 0)
  {
  }

  /** Whether `k` steps in direction `d` stay in unsigned range. */
  predicate CanWalk(c: Coord, d: Direction, k: nat) {
    !(d == Left && c.x < k) && !(d == Up && c.y < k)
  }

  /** Where `k` successive steps in direction `d` lead: the reference for repeated
      `Advance` (string mode, the bridge, and straight-line runs). */
  function Walk(c: Coord, d: Direction, k: nat): (r: Coord)
    requires CanWalk(c, d, k)
    ensures k == 0 ==> r == c
    ensures k == 1 ==> r == Advance(c, d)
  {
    match d
    case Left => Coord(c.x - k, c.y)
    case Down => Coord(c.x, c.y + k)
    case Up => Coord(c.x, c.y - k)
    case Right => Coord(c.x + k, c.y)
  }

  /** A walk of `k + 1` steps is a walk of `k` steps followed by one `Advance`. */
  lemma WalkStep(c: Coord, d: Direction, k: nat)
    requires CanWalk(c, d, k + 1)
    ensures CanWalk(c, d, k) && CanAdvance(Walk(c, d, k), d)
    ensures Advance(Walk(c, d, k), d) == Walk(c, d, k + 1)
  {
    match d
    case Left =>
    case Down =>
    case Up =>
    case Right =>
  }

  /** The `Distribution<Direction>` of `?`: a roll in 0..4 picks the direction. */
  function SampleDirection(roll: nat): Direction
    requires roll < 4
  {
    match roll
    case 0 => Left
    case 1 => Down
    case 2 => Right
    case _ => Up
  }

  /** The rolls that make `?` pick direction `d`. */
  function RollsFor(d: Direction): set<nat> {
    set roll: nat | roll < 4 && SampleDirection(roll) == d
  }

  /** Each direction is picked by exactly one of the four equally likely rolls,
      so a uniform roll gives a uniform direction. */
  lemma SampleUniform(d: Direction)
    ensures |RollsFor(d)| == 1
  {
    var only: nat := match d case Left => 0 case Down => 1 case Right => 2 case Up => 3;
    forall roll: nat | roll in RollsFor(d) ensures roll == only {
      assert roll == 0 || roll == 1 || roll == 2 || roll == 3;
    }
    assert RollsFor(d) == {only};
  }
}
