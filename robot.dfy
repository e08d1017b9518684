/** The robot: a cell on the grid and a facing direction held as an integer,
    with a clamped one-cell advance and quarter turns modulo 4. */
module RobotMotion {
  import opened Grid

  /** Directions as the game numbers them. */
  const FacingRight := 0
  const FacingDown := 1
  const FacingLeft := 2
  const FacingUp := 3

  /** The value of a robot: its position and its direction. */
  datatype Pose = Pose(x: int, y: int, dir: int) {
    function At(): Cell {
      (x, y)
    }
  }

  /** A pose the game can reach: on the grid, facing one of the four directions. */
  predicate PoseOk(p: Pose) {
    InGrid(p.At()) && 0 <= p.dir < 4
  }

  function Min(a: int, b: int): int {
    if a <= b then a else b
  }

  function Max(a: int, b: int): int {
    if a <= b then b else a
  }

  /** The neighbouring cell in the facing direction, before any clamping;
      the robot's own cell when the direction is not one of the four. */
  function Ahead(p: Pose): (c: Cell)
    ensures 0 <= p.dir < 4 && p.dir % 2 == 0 ==> c.1 == p.y && (c.0 == p.x + 1 || c.0 == p.x - 1)
    ensures 0 <= p.dir < 4 && p.dir % 2 == 1 ==> c.0 == p.x && (c.1 == p.y + 1 || c.1 == p.y - 1)
  {
    if p.dir == FacingRight then (p.x + 1, p.y)
    else if p.dir == FacingDown then (p.x, p.y + 1)
    else if p.dir == FacingLeft then (p.x - 1, p.y)
    else if p.dir == FacingUp then (p.x, p.y - 1)
    else p.At()
  }

  /** One step forward, each coordinate clamped to the grid. */
  function Advanced(p: Pose): (r: Pose)
    ensures r.dir == p.dir
    ensures InGrid(p.At()) ==> InGrid(r.At())
  {
    if p.dir == FacingRight then p.(x := Min(p.x + 1, GridWidth - 1))
    else if p.dir == FacingDown then p.(y := Min(p.y + 1, GridHeight - 1))
    else if p.dir == FacingLeft then p.(x := Max(p.x - 1, 0))
    else if p.dir == FacingUp then p.(y := Max(p.y - 1, 0))
    else p
  }

  /** From a reachable pose, the clamped advance is the same as "go to the cell
      ahead if it is on the grid, otherwise stay": walking into a wall is a no-op,
      and at most one coordinate changes, by one, along the facing axis. */
  lemma AdvanceMovesAheadOrStays(p: Pose)
    requires PoseOk(p)
    ensures Advanced(p).At() == (if InGrid(Ahead(p)) then Ahead(p) else p.At())
    ensures Advanced(p).dir == p.dir
  {
  }

  /** Quarter turn clockwise. Dafny's `%` and the source's `%` agree for the
      positive divisor 4. */
  function TurnedRight(p: Pose): (r: Pose)
    ensures r.At() == p.At() && 0 <= r.dir < 4
    ensures p.dir == FacingUp ==> r.dir == FacingRight
  {
    p.(dir := (p.dir + 1) % 4)
  }

  /** Quarter turn counter-clockwise; direction 0 turns to 3. */
  function TurnedLeft(p: Pose): (r: Pose)
    ensures r.At() == p.At() && 0 <= r.dir < 4
    ensures p.dir == FacingRight ==> r.dir == FacingUp
  {
    p.(dir := (p.dir - 1) % 4)
  }

  /** A right turn rotates the facing step a quarter turn clockwise on the
      screen, where rows grow downwards: (dx, dy) becomes (-dy, dx), so
      right turns to down, down to left, left to up and up to right. */
  lemma TurnRightRotatesClockwise(p: Pose)
    requires PoseOk(p)
    ensures var (dx, dy) := (Ahead(p).0 - p.x, Ahead(p).1 - p.y);
      Ahead(TurnedRight(p)) == (p.x - dy, p.y + dx)
  {
  }

  /** A left turn rotates the facing step a quarter turn counter-clockwise:
      (dx, dy) becomes (dy, -dx). */
  lemma TurnLeftRotatesCounterClockwise(p: Pose)
    requires PoseOk(p)
    ensures var (dx, dy) := (Ahead(p).0 - p.x, Ahead(p).1 - p.y);
      Ahead(TurnedLeft(p)) == (p.x + dy, p.y - dx)
  {
  }

  /** A right turn and a left turn, in either order, cancel out (up to
      reducing the direction modulo 4, which is the identity on reachable poses). */
  lemma TurnsAreInverse(p: Pose)
    ensures TurnedLeft(TurnedRight(p)) == p.(dir := p.dir % 4)
    ensures TurnedRight(TurnedLeft(p)) == p.(dir := p.dir % 4)
    ensures PoseOk(p) ==> TurnedLeft(TurnedRight(p)) == p && TurnedRight(TurnedLeft(p)) == p
  {
  }

  /** Four right turns come back to the starting direction. */
  lemma FourRightTurnsAreIdentity(p: Pose)
    ensures TurnedRight(TurnedRight(TurnedRight(TurnedRight(p)))) == p.(dir := p.dir % 4)
    ensures PoseOk(p) ==> TurnedRight(TurnedRight(TurnedRight(TurnedRight(p)))) == p
  {
  }

  /** The robot object; its moves overwrite its fields in place. */
  class Robot {
    var x: int
    var y: int
    var direction: int

    function Snapshot(): Pose
      reads this
    {
      Pose(x, y, direction)
    }

    /** A new robot faces right. */
    constructor (x0: int, y0: int)
      ensures Snapshot() == Pose(x0, y0, FacingRight)
    {
      x := x0;
      y := y0;
      direction := FacingRight;
    }

    method MoveForward()
      modifies this
      ensures Snapshot() == Advanced(old(Snapshot()))
    {
      if direction == FacingRight {
        x := Min(x + 1, GridWidth - 1);
      } else if direction == FacingDown {
        y := Min(y + 1, GridHeight - 1);
      } else if direction == FacingLeft {
        x := Max(x - 1, 0);
      } else if direction == FacingUp {
        y := Max(y - 1, 0);
      }
    }

    method TurnRight()
      modifies this
      ensures Snapshot() == TurnedRight(old(Snapshot()))
    {
      direction := (direction + 1) % 4;
    }

    method TurnLeft()
      modifies this
      ensures Snapshot() == TurnedLeft(old(Snapshot()))
    {
      direction := (direction - 1) % 4;
    }
  }
}
