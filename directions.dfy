/**
 * The four directions a dot can move in (PlayerDirection.java), with their
 * row and column deltas (the two accessors of the Direction interface) and
 * the reverse lookup `of`.
 */
module Directions {
  import opened Wrappers

  datatype PlayerDirection = UP | RIGHT | DOWN | LEFT

  /** `values()`: the constants in declaration (ordinal) order. */
  const Values: seq<PlayerDirection> := [UP, RIGHT, DOWN, LEFT]

  /** `getRowChange()`. */
  function RowChange(d: PlayerDirection): (r: int) {
    match d
    case UP => -1
    case RIGHT => 0
    case DOWN => 1
    case LEFT => 0
  }

  /** `getColChange()`. */
  function ColChange(d: PlayerDirection): (r: int) {
    match d
    case UP => 0
    case RIGHT => 1
    case DOWN => 0
    case LEFT => -1
  }

  /** A delta pair with exactly one non-zero component, of magnitude 1. */
  predicate IsUnitStep(dr: int, dc: int) {
    (dr == 0 && (dc == 1 || dc == -1)) || (dc == 0 && (dr == 1 || dr == -1))
  }

  /** The antipodal direction, by name: UP and DOWN, LEFT and RIGHT swap. */
  function Opposite(d: PlayerDirection): (r: PlayerDirection)
    ensures RowChange(r) == -RowChange(d) && ColChange(r) == -ColChange(d)
    ensures r != d
  {
    match d
    case UP => DOWN
    case RIGHT => LEFT
    case DOWN => UP
    case LEFT => RIGHT
  }

  /** Every constant occurs in `values()`. */
  lemma ValuesComplete(d: PlayerDirection)
    ensures d in Values
  {
  }

  /** Each constant moves by a unit step along exactly one axis. */
  lemma UnitDeltas(d: PlayerDirection)
    ensures IsUnitStep(RowChange(d), ColChange(d))
  {
  }

  /** Distinct constants have distinct delta pairs, so `of` is well defined. */
  lemma DistinctDeltas(d: PlayerDirection, e: PlayerDirection)
    ensures d != e ==> RowChange(d) != RowChange(e) || ColChange(d) != ColChange(e)
  {
  }

  /** Taking the opposite twice gives the direction back. */
  lemma OppositeInvolutive(d: PlayerDirection)
    ensures Opposite(Opposite(d)) == d
  {
  }

  /**
   * The loop of `of` over a suffix `ds` of `values()`: the first constant of
   * `ds` whose deltas are `(dr, dc)`, or the exception when there is none.
   */
  function OfIn(ds: seq<PlayerDirection>, dr: int, dc: int): (r: Result<PlayerDirection>)
    ensures r.Ok? ==> r.value in ds && RowChange(r.value) == dr && ColChange(r.value) == dc
    ensures r.Err? <==> forall k :: 0 <= k < |ds| ==> RowChange(ds[k]) != dr || ColChange(ds[k]) != dc
  {
    if ds == [] then Err(IllegalArgument)
    else if RowChange(ds[0]) == dr && ColChange(ds[0]) == dc then Ok(ds[0])
    else
      var r := OfIn(ds[1..], dr, dc);
      assert forall k :: 1 <= k < |ds| ==> ds[k] == ds[1..][k - 1];
      r
  }

  /** `of(rowChange, colChange)`: linear search over `values()`. */
  function Of(dr: int, dc: int): (r: Result<PlayerDirection>)
    ensures r.Ok? ==> RowChange(r.value) == dr && ColChange(r.value) == dc
  {
    OfIn(Values, dr, dc)
  }

  /** `of` finds a constant exactly for the unit steps and throws for every other pair. */
  lemma OfDefinedIffUnitStep(dr: int, dc: int)
    ensures Of(dr, dc).Ok? <==> IsUnitStep(dr, dc)
  {
    if IsUnitStep(dr, dc) {
      var d := if dr == -1 then UP else if dr == 1 then DOWN else if dc == 1 then RIGHT else LEFT;
      assert Values[0] == UP && Values[1] == RIGHT && Values[2] == DOWN && Values[3] == LEFT;
      assert RowChange(d) == dr && ColChange(d) == dc;
    }
  }

  /** Round trip: looking up a constant's own deltas gives the constant back. */
  lemma OfRoundTrip(d: PlayerDirection)
    ensures Of(RowChange(d), ColChange(d)) == Ok(d)
  {
    OfDefinedIffUnitStep(RowChange(d), ColChange(d));
  }

  /** `of(0, 0)` and `of(1, -1)` throw. */
  lemma OfRejectsExamples()
    ensures Of(0, 0) == Err(IllegalArgument)
    ensures Of(1, -1) == Err(IllegalArgument)
  {
    OfDefinedIffUnitStep(0, 0);
    OfDefinedIffUnitStep(1, -1);
  }

  /**
   * Negating both deltas of any constant gives a pair that `of` accepts, and
   * the constant it finds is the opposite one; negating again gives `d` back.
   */
  lemma OfNegatedDeltas(d: PlayerDirection)
    ensures Of(-RowChange(d), -ColChange(d)) == Ok(Opposite(d))
    ensures Of(-RowChange(Opposite(d)), -ColChange(Opposite(d))) == Ok(d)
  {
    OfRoundTrip(Opposite(d));
    OfRoundTrip(d);
  }
}
