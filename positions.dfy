/** A cell of the board (the record Position.java): equality is by value. */
module Positions {
  import opened Directions

  datatype Position = Position(row: int, col: int)

  /** Cells at Manhattan distance exactly 1, defined without directions. */
  predicate Adjacent(a: Position, b: Position) {
    var dr := a.row - b.row;
    var dc := a.col - b.col;
    (if dr < 0 then -dr else dr) + (if dc < 0 then -dc else dc) == 1
  }

  /**
   * `moveTo(direction)`: the cell one step away, with no bounds checking at
   * all; it always differs from the start cell and is adjacent to it.
   */
  function MoveTo(p: Position, d: PlayerDirection): (r: Position)
    ensures r != p && Adjacent(r, p)
  {
    Position(p.row + RowChange(d), p.col + ColChange(d))
  }

  /** The four moves from the origin; UP and LEFT leave the non-negative quadrant. */
  lemma MoveToFromOrigin()
    ensures MoveTo(Position(0, 0), UP) == Position(-1, 0)
    ensures MoveTo(Position(0, 0), RIGHT) == Position(0, 1)
    ensures MoveTo(Position(0, 0), DOWN) == Position(1, 0)
    ensures MoveTo(Position(0, 0), LEFT) == Position(0, -1)
  {
    assert RowChange(UP) == -1 && ColChange(UP) == 0;
    assert RowChange(RIGHT) == 0 && ColChange(RIGHT) == 1;
    assert RowChange(DOWN) == 1 && ColChange(DOWN) == 0;
    assert RowChange(LEFT) == 0 && ColChange(LEFT) == -1;
  }

  /** Moving and then moving in the opposite direction returns to the start. */
  lemma MoveToRoundTrip(p: Position, d: PlayerDirection)
    ensures MoveTo(MoveTo(p, d), Opposite(d)) == p
  {
  }

  /** The cells adjacent to `b` are exactly the cells one move away from it. */
  lemma AdjacentIffOneMove(a: Position, b: Position)
    ensures Adjacent(a, b) <==> exists d :: a == MoveTo(b, d)
  {
    if Adjacent(a, b) {
      var d := if a.row < b.row then UP else if a.row > b.row then DOWN
               else if a.col > b.col then RIGHT else LEFT;
      assert a == MoveTo(b, d);
    }
  }

  /** Adjacency spelled out as the four single moves. */
  lemma AdjacentByDirection(a: Position, b: Position)
    ensures Adjacent(a, b) <==> a == MoveTo(b, UP) || a == MoveTo(b, DOWN) || a == MoveTo(b, RIGHT) || a == MoveTo(b, LEFT)
  {
  }

  /** The move from a cell to an adjacent one is the direction `of` finds for their difference. */
  lemma DifferenceOfMove(p: Position, d: PlayerDirection)
    ensures Of(MoveTo(p, d).row - p.row, MoveTo(p, d).col - p.col) == Wrappers.Ok(d)
  {
    OfRoundTrip(d);
  }
}
