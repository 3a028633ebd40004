/** A dot on the board (Dot.java) and its two kinds (DotType.java). */
module Dots {
  import opened Directions
  import opened Positions

  datatype DotType = PLAYER | OPPONENT

  /** A dot of fixed type whose position is overwritten by every move. */
  class Dot {
    const dotType: DotType
    var position: Position

    /** `new Dot(type, position)`. */
    constructor (dotType: DotType, position: Position)
      ensures this.dotType == dotType && this.position == position
    {
      this.dotType := dotType;
      this.position := position;
    }

    /** `moveTo(direction)`: the new position is the old one moved by `d`; the type stays. */
    method MoveTo(d: PlayerDirection)
      modifies this
      ensures position == Positions.MoveTo(old(position), d)
      ensures position != old(position)
    {
      var newPosition := Positions.MoveTo(position, d);
      position := newPosition;
    }

    /** `getPosition()`: the most recently set position. */
    method GetPosition() returns (p: Position)
      ensures p == position
    {
      p := position;
    }
  }

  /** Moving a dot and then moving it the opposite way puts it back where it was. */
  method MoveAndMoveBack(dot: Dot, d: PlayerDirection)
    modifies dot
    ensures dot.position == old(dot.position)
  {
    dot.MoveTo(d);
    dot.MoveTo(Opposite(d));
    MoveToRoundTrip(old(dot.position), d);
  }
}
