/**
 * A wall between two neighbouring cells (Wall.java). The Java class keeps the
 * two cells in an `ArrayList` filled once by the constructor and never
 * changed afterwards, so it is a value here.
 */
module Walls {
  import opened Wrappers
  import opened Directions
  import opened Positions

  /** The lists a constructed wall can hold: two neighbouring cells. */
  type WallCells = c: seq<Position> | |c| == 2 && Adjacent(c[0], c[1])
    witness [Position(0, 0), Position(0, 1)]

  /** The stored list of cells, `[pos1, pos2]` once constructed. */
  datatype Wall = Wall(cells: WallCells)

  /**
   * `new Wall(pos1, pos2)`: accepted when `pos1` is one step UP, DOWN, RIGHT
   * or LEFT of `pos2` (checked in that order), otherwise IllegalArgumentException.
   */
  function NewWall(pos1: Position, pos2: Position): (r: Result<Wall>)
    ensures r.Ok? <==> Adjacent(pos1, pos2)
    ensures r.Ok? ==> r.value.cells == [pos1, pos2]
  {
    AdjacentByDirection(pos1, pos2);
    if pos1 == MoveTo(pos2, UP) || pos1 == MoveTo(pos2, DOWN)
       || pos1 == MoveTo(pos2, RIGHT) || pos1 == MoveTo(pos2, LEFT)
    then Ok(Wall([pos1, pos2]))
    else Err(IllegalArgument)
  }

  /** `containsAll(pos1, pos2)`: both cells are among the stored ones. */
  predicate ContainsAll(w: Wall, pos1: Position, pos2: Position) {
    pos1 in w.cells && pos2 in w.cells
  }

  /** Construction succeeds exactly for a pair one direction step apart. */
  lemma NewWallIffOneStep(pos1: Position, pos2: Position)
    ensures NewWall(pos1, pos2).Ok? <==> exists d :: pos1 == MoveTo(pos2, d)
  {
    if !NewWall(pos1, pos2).Ok? {
      forall d ensures pos1 != MoveTo(pos2, d) {
        match d
        case UP =>
        case DOWN =>
        case RIGHT =>
        case LEFT =>
      }
    }
  }

  /** Adjacency does not depend on the order of the two cells. */
  lemma NewWallSymmetric(a: Position, b: Position)
    ensures NewWall(a, b).Ok? <==> NewWall(b, a).Ok?
  {
  }

  /** `new Wall((1,2),(1,3))` succeeds; `new Wall((1,2),(3,3))` and `new Wall(p, p)` throw. */
  lemma NewWallExamples(p: Position)
    ensures NewWall(Position(1, 2), Position(1, 3)) == Ok(Wall([Position(1, 2), Position(1, 3)]))
    ensures NewWall(Position(1, 2), Position(3, 3)) == Err(IllegalArgument)
    ensures NewWall(p, p) == Err(IllegalArgument)
  {
    assert Position(1, 2) == MoveTo(Position(1, 3), LEFT);
  }

  /**
   * On a constructed wall `containsAll(p, q)` holds exactly when each of `p`
   * and `q` is one of the two cells, whatever the order, and `p == q` is allowed.
   */
  lemma ContainsAllOfNewWall(a: Position, b: Position, p: Position, q: Position)
    requires NewWall(a, b).Ok?
    ensures ContainsAll(NewWall(a, b).value, p, q) <==> (p == a || p == b) && (q == a || q == b)
    ensures ContainsAll(NewWall(a, b).value, a, b) && ContainsAll(NewWall(a, b).value, b, a)
    ensures ContainsAll(NewWall(a, b).value, a, a) && ContainsAll(NewWall(a, b).value, b, b)
  {
  }
}
