/**
 * The board rules (GameModel.java): an array of dots on a 7x7 board, the
 * start-layout check, on-board and valid-move queries, and an unchecked move.
 * The pure functions of this module are the specification the methods of
 * `GameModel` are proved against.
 */
module Model {
  import opened Wrappers
  import opened Directions
  import opened Positions
  import opened Dots

  /** `BOARD_SIZE`: the board has this many rows and columns. */
  const BOARD_SIZE: int := 7

  /** `isOnBoard(position)`. */
  predicate IsOnBoard(p: Position) {
    0 <= p.row < BOARD_SIZE && 0 <= p.col < BOARD_SIZE
  }

  /** What `isValidMove` answers for dot `i` of the layout `ps`: target on the board and free. */
  predicate CanMove(ps: seq<Position>, i: int, d: PlayerDirection)
    requires 0 <= i < |ps|
  {
    IsOnBoard(MoveTo(ps[i], d)) && MoveTo(ps[i], d) !in ps
  }

  /** The layout `checkDots` accepts: every dot on the board, no two on one cell. */
  predicate WellPlaced(ps: seq<Position>) {
    && (forall k :: 0 <= k < |ps| ==> IsOnBoard(ps[k]))
    && (forall j, k :: 0 <= j < k < |ps| ==> ps[j] != ps[k])
  }

  predicate NoDuplicates<T(==)>(s: seq<T>) {
    forall j, k :: 0 <= j < k < |s| ==> s[j] != s[k]
  }

  /** The directions of `ds`, in order, that dot `i` may take. */
  function ValidMovesIn(ps: seq<Position>, i: int, ds: seq<PlayerDirection>): (r: seq<PlayerDirection>)
    requires 0 <= i < |ps|
    ensures |r| <= |ds|
    ensures forall d :: d in r <==> d in ds && CanMove(ps, i, d)
    ensures NoDuplicates(ds) ==> NoDuplicates(r)
  {
    if ds == [] then []
    else
      var rest := ValidMovesIn(ps, i, ds[1..]);
      assert forall d :: d in ds <==> d == ds[0] || d in ds[1..];
      if CanMove(ps, i, ds[0]) then
        assert NoDuplicates(ds) ==> ds[0] !in ds[1..];
        [ds[0]] + rest
      else rest
  }

  /** `getValidMoves(i)` as the `EnumSet` iterates it: in ordinal order. */
  function ValidMoves(ps: seq<Position>, i: int): (r: seq<PlayerDirection>)
    requires 0 <= i < |ps|
  {
    ValidMovesIn(ps, i, Values)
  }

  /** The positions of the dots, in index order. */
  function PositionsOf(ds: seq<Dot>): (r: seq<Position>)
    reads ds
    ensures |r| == |ds| && forall k :: 0 <= k < |ds| ==> r[k] == ds[k].position
  {
    seq(|ds|, k reads ds requires 0 <= k < |ds| => ds[k].position)
  }

  /** `getValidMoves(i)` holds exactly the valid moves, each once, at most four of them. */
  lemma ValidMovesExactly(ps: seq<Position>, i: int)
    requires 0 <= i < |ps|
    ensures forall d :: d in ValidMoves(ps, i) <==> CanMove(ps, i, d)
    ensures NoDuplicates(ValidMoves(ps, i))
    ensures |ValidMoves(ps, i)| <= 4
  {
    forall d ensures d in Values { ValuesComplete(d); }
  }

  /** A dot that takes a valid move leaves the layout on the board and collision-free. */
  lemma ValidMoveKeepsWellPlaced(ps: seq<Position>, i: int, d: PlayerDirection)
    requires WellPlaced(ps) && 0 <= i < |ps| && CanMove(ps, i, d)
    ensures WellPlaced(ps[i := MoveTo(ps[i], d)])
  {
  }

  /** The on-board cases of the test suite. */
  lemma IsOnBoardCases()
    ensures IsOnBoard(Position(0, 0)) && IsOnBoard(Position(6, 6))
    ensures !IsOnBoard(Position(-1, 1)) && !IsOnBoard(Position(-2, -5))
    ensures !IsOnBoard(Position(7, 7)) && !IsOnBoard(Position(6, 7))
  {
  }

  /** In the default layout the player dot may go RIGHT, DOWN or LEFT, but not UP (off the board). */
  lemma DefaultValidMoves()
    ensures ValidMoves([Position(0, 4), Position(6, 2)], 0) == [RIGHT, DOWN, LEFT]
  {
    var ps := [Position(0, 4), Position(6, 2)];
    assert !CanMove(ps, 0, UP);
    assert CanMove(ps, 0, RIGHT) && CanMove(ps, 0, DOWN) && CanMove(ps, 0, LEFT);
  }

  /** The model: a fixed array of dots whose positions change. */
  class GameModel {
    /**
     * The dot array: a shallow `clone()` of the constructor's argument, so
     * the dots are the caller's objects. No slot of it is ever assigned
     * again, so it is an immutable sequence of references; the dots
     * themselves change.
     */
    const dots: seq<Dot>

    /** No dot object occurs twice, so moving one dot moves no other. */
    ghost predicate Valid()
      reads this
    {
      forall j, k :: 0 <= j < k < |dots| ==> dots[j] != dots[k]
    }

    /** The abstract state: the dots' positions, in index order. */
    ghost function Positions(): seq<Position>
      reads this, dots
    {
      PositionsOf(dots)
    }

    /** `new GameModel()`: PLAYER at (0,4) as dot 0, OPPONENT at (6,2) as dot 1. */
    constructor Default()
      ensures Valid() && |dots| == 2
      ensures fresh(dots[0]) && fresh(dots[1])
      ensures Positions() == [Position(0, 4), Position(6, 2)]
      ensures dots[0].dotType == PLAYER && dots[1].dotType == OPPONENT
      ensures WellPlaced(Positions())
    {
      var player := new Dot(PLAYER, Position(0, 4));
      var opponent := new Dot(OPPONENT, Position(6, 2));
      dots := [player, opponent];
    }

    /** The constructor body once `checkDots` has passed: a fresh copy of the argument array. */
    constructor FromChecked(input: seq<Dot>)
      requires WellPlaced(PositionsOf(input))
      ensures Valid() && dots == input
      ensures WellPlaced(Positions())
    {
      dots := input;
      new;
      forall j, k | 0 <= j < k < |dots| ensures dots[j] != dots[k] {
        assert PositionsOf(input)[j] != PositionsOf(input)[k];
      }
    }

    /**
     * `new GameModel(dots...)`: IllegalArgumentException unless every dot is
     * on the board and no two share a cell.
     */
    static method New(input: seq<Dot>) returns (r: Result<GameModel>)
      ensures r.Ok? <==> WellPlaced(PositionsOf(input))
      ensures r.Ok? ==> r.value.Valid() && fresh(r.value) && r.value.dots == input
    {
      var ok := CheckDots(input);
      if !ok {
        return Err(IllegalArgument);
      }
      var m := new GameModel.FromChecked(input);
      r := Ok(m);
    }

    /** `checkDots(dots)`: scans the dots, remembering the positions seen so far. */
    static method CheckDots(input: seq<Dot>) returns (ok: bool)
      ensures ok <==> WellPlaced(PositionsOf(input))
    {
      ghost var ps := PositionsOf(input);
      var seen: set<Position> := {};
      var i := 0;
      while i < |input|
        invariant 0 <= i <= |input|
        invariant seen == set j | 0 <= j < i :: ps[j]
        invariant WellPlaced(ps[..i])
      {
        var p := input[i].position;
        if !IsOnBoard(p) || p in seen {
          assert !WellPlaced(ps) by {
            if !IsOnBoard(p) {
              assert !IsOnBoard(ps[i]);
            } else {
              var j :| 0 <= j < i && ps[j] == p;
              assert ps[j] == ps[i];
            }
          }
          return false;
        }
        seen := seen + {p};
        i := i + 1;
        assert ps[..i] == ps[..i - 1] + [p];
      }
      assert ps[..i] == ps;
      ok := true;
    }

    /** `getDotPosition(i)`. */
    method GetDotPosition(i: int) returns (p: Position)
      requires 0 <= i < |dots|
      ensures p == Positions()[i]
    {
      p := dots[i].position;
    }

    /**
     * `isValidMove(i, d)`: IllegalArgumentException for an index outside the
     * array; otherwise whether the target is on the board and occupied by no dot.
     */
    method IsValidMove(i: int, d: PlayerDirection) returns (r: Result<bool>)
      ensures r.Ok? <==> 0 <= i < |dots|
      ensures r.Ok? ==> (r.value <==> IsOnBoard(MoveTo(Positions()[i], d))
                                       && forall k :: 0 <= k < |dots| ==> Positions()[k] != MoveTo(Positions()[i], d))
    {
      if i < 0 || i >= |dots| {
        return Err(IllegalArgument);
      }
      var newPosition := MoveTo(dots[i].position, d);
      if !IsOnBoard(newPosition) {
        return Ok(false);
      }
      var k := 0;
      while k < |dots|
        invariant 0 <= k <= |dots|
        invariant forall j :: 0 <= j < k ==> dots[j].position != newPosition
      {
        if dots[k].position == newPosition {
          return Ok(false);
        }
        k := k + 1;
      }
      r := Ok(true);
    }

    /** `getValidMoves(i)`: the directions, in ordinal order, for which `isValidMove` holds. */
    method GetValidMoves(i: int) returns (r: Result<seq<PlayerDirection>>)
      ensures r.Ok? <==> 0 <= i < |dots|
      ensures r.Ok? ==> r.value == ValidMoves(Positions(), i)
    {
      var validMoves: seq<PlayerDirection> := [];
      var n := 0;
      while n < |Values|
        invariant 0 <= n <= |Values|
        invariant n > 0 ==> 0 <= i < |dots|
        invariant n == 0 ==> validMoves == []
        invariant n > 0 ==> ValidMovesIn(Positions(), i, Values[..n]) == validMoves
      {
        var direction := Values[n];
        var valid := IsValidMove(i, direction);
        if valid.Err? {
          return Err(IllegalArgument);
        }
        assert valid.value <==> CanMove(Positions(), i, direction);
        assert n == 0 ==> ValidMovesIn(Positions(), i, Values[..n]) == [];
        ValidMovesAppend(Positions(), i, Values[..n], direction);
        assert Values[..n + 1] == Values[..n] + [direction];
        if valid.value {
          validMoves := validMoves + [direction];
        }
        n := n + 1;
      }
      assert Values[..n] == Values;
      r := Ok(validMoves);
    }

    /** `move(i, d)`: dot `i` moves by `d`; nothing is checked and no other dot changes. */
    method Move(i: int, d: PlayerDirection)
      requires Valid() && 0 <= i < |dots|
      modifies dots[i]
      ensures Positions() == old(Positions())[i := MoveTo(old(Positions())[i], d)]
    {
      dots[i].MoveTo(d);
    }

    /** `getDotPositions()`: one position per dot, in index order. */
    method GetDotPositions() returns (r: seq<Position>)
      ensures |r| == |dots|
      ensures forall k :: 0 <= k < |dots| ==> r[k] == dots[k].position
    {
      r := [];
      var k := 0;
      while k < |dots|
        invariant 0 <= k <= |dots|
        invariant |r| == k && forall j :: 0 <= j < k ==> r[j] == dots[j].position
      {
        r := r + [dots[k].position];
        k := k + 1;
      }
    }

    /** `getDotNumber(p)`: the least index of a dot at `p`, or empty when there is none. */
    method GetDotNumber(p: Position) returns (r: Option<nat>)
      ensures r.Some? ==> r.value < |dots| && dots[r.value].position == p
                          && forall j :: 0 <= j < r.value ==> dots[j].position != p
      ensures r.None? ==> forall j :: 0 <= j < |dots| ==> dots[j].position != p
    {
      var k := 0;
      while k < |dots|
        invariant 0 <= k <= |dots|
        invariant forall j :: 0 <= j < k ==> dots[j].position != p
      {
        if dots[k].position == p {
          return Some(k);
        }
        k := k + 1;
      }
      r := None;
    }
  }

  /** Extending the scanned prefix of directions by one extends the result by that direction when valid. */
  lemma {:induction false} ValidMovesAppend(ps: seq<Position>, i: int, ds: seq<PlayerDirection>, d: PlayerDirection)
    requires 0 <= i < |ps|
    ensures ValidMovesIn(ps, i, ds + [d]) == ValidMovesIn(ps, i, ds) + (if CanMove(ps, i, d) then [d] else [])
    decreases |ds|
  {
    if ds == [] {
      assert [] + [d] == [d];
      assert [d][1..] == [];
    } else {
      assert (ds + [d])[1..] == ds[1..] + [d];
      ValidMovesAppend(ps, i, ds[1..], d);
    }
  }
}
