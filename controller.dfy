/**
 * The click-driven move logic of GameController.java, without its JavaFX
 * squares: a two-phase selection (pick the player dot, then a target
 * cell), the coupled inverse move, the step counter and the win test.
 */
module Controller {
  import opened Wrappers
  import opened Directions
  import opened Positions
  import opened Model

  /** Whether the next click picks the dot to move or its destination. */
  datatype SelectionPhase = SELECT_FROM | SELECT_TO {
    /** `alter()`: the other phase. */
    function Alter(): (r: SelectionPhase)
      ensures r != this
    {
      match this
      case SELECT_FROM => SELECT_TO
      case SELECT_TO => SELECT_FROM
    }
  }

  /** Alternating twice is the identity. */
  lemma AlterInvolutive(p: SelectionPhase)
    ensures p.Alter().Alter() == p
  {
  }

  /** The cells reached from `from` by each direction of `ds`, in order. */
  function Targets(from: Position, ds: seq<PlayerDirection>): (r: seq<Position>)
    ensures |r| == |ds| && forall k :: 0 <= k < |ds| ==> r[k] == MoveTo(from, ds[k])
  {
    seq(|ds|, k requires 0 <= k < |ds| => MoveTo(from, ds[k]))
  }

  /** The cells selectable in a phase, given the dots' positions and the selection. */
  function SelectableFor(phase: SelectionPhase, ps: seq<Position>, sel: Option<Position>): (r: seq<Position>)
    requires |ps| >= 1 && (phase == SELECT_TO ==> sel.Some?)
  {
    match phase
    case SELECT_FROM => [ps[0]]
    case SELECT_TO => Targets(sel.value, ValidMoves(ps, 0))
  }

  /**
   * A coupled move: the player dot moves by `d`, the opponent dot by the
   * opposite direction. The two displacements cancel, so the sum of all four
   * coordinates never changes, and the dots meet exactly when the opponent
   * started two steps of `d` away from the player.
   */
  lemma CoupledMoveInvariants(p0: Position, p1: Position, d: PlayerDirection)
    ensures MoveTo(p0, d).row - p0.row == -(MoveTo(p1, Opposite(d)).row - p1.row)
    ensures MoveTo(p0, d).col - p0.col == -(MoveTo(p1, Opposite(d)).col - p1.col)
    ensures MoveTo(p0, d).row + MoveTo(p0, d).col + MoveTo(p1, Opposite(d)).row + MoveTo(p1, Opposite(d)).col
            == p0.row + p0.col + p1.row + p1.col
    ensures MoveTo(p0, d) == MoveTo(p1, Opposite(d))
            <==> p1 == Position(p0.row + 2 * RowChange(d), p0.col + 2 * ColChange(d))
  {
  }

  /**
   * Where the opponent at `p1` ends up when the player moves from `from` to
   * `to`: displaced by the same amount in the other sense.
   */
  function Mirror(p1: Position, from: Position, to: Position): (r: Position) {
    Position(p1.row - (to.row - from.row), p1.col - (to.col - from.col))
  }

  /** For a move by `d`, the mirrored displacement is the move by the opposite direction. */
  lemma MirrorIsOppositeMove(p0: Position, p1: Position, d: PlayerDirection)
    ensures Mirror(p1, p0, MoveTo(p0, d)) == MoveTo(p1, Opposite(d))
  {
  }

  /** The player dot's valid move never lands on the opponent: a win comes only from the inverse move. */
  lemma PlayerLegNeverWins(ps: seq<Position>, d: PlayerDirection)
    requires |ps| == 2 && CanMove(ps, 0, d)
    ensures MoveTo(ps[0], d) != ps[1]
  {
  }

  /** The cell opposite `p` through the centre of the board. */
  function Reflect(p: Position): (r: Position) {
    Position(BOARD_SIZE - 1 - p.row, BOARD_SIZE - 1 - p.col)
  }

  /**
   * The mirrored move keeps an opponent placed opposite the player through
   * the centre there, wherever the player goes.
   */
  lemma MirrorKeepsReflection(p0: Position, p1: Position, to: Position)
    requires p1 == Reflect(p0)
    ensures Mirror(p1, p0, to) == Reflect(to)
  {
  }

  /**
   * An opponent opposite an on-board player is on the board too, although
   * its moves are never checked, and the two share a cell exactly when the
   * player stands on the centre cell (3,3). The default layout is such a pair.
   */
  lemma ReflectionOnBoard(p0: Position)
    ensures IsOnBoard(p0) ==> IsOnBoard(Reflect(p0))
    ensures Reflect(p0) == p0 <==> p0 == Position(3, 3)
    ensures Reflect(Position(0, 4)) == Position(6, 2)
  {
  }

  /**
   * A cell selectable in SELECT_TO is one valid step of dot 0 away from the
   * selection: `of` recovers that step from the difference of the cells, and
   * `of` of its negated deltas is the opposite direction.
   */
  lemma ClickedTargetDirection(ps: seq<Position>, sel: Position, position: Position)
    requires |ps| >= 1 && position in Targets(sel, ValidMoves(ps, 0))
    ensures Of(position.row - sel.row, position.col - sel.col).Ok?
    ensures var d := Of(position.row - sel.row, position.col - sel.col).value;
            && CanMove(ps, 0, d) && position == MoveTo(sel, d)
            && Of(RowChange(d) * -1, ColChange(d) * -1) == Ok(Opposite(d))
  {
    var k :| 0 <= k < |ValidMoves(ps, 0)| && Targets(sel, ValidMoves(ps, 0))[k] == position;
    var d := ValidMoves(ps, 0)[k];
    ValidMovesExactly(ps, 0);
    DifferenceOfMove(sel, d);
    OfNegatedDeltas(d);
  }

  /** The selection state of the game screen, over a model it owns. */
  class GameController {
    var numberOfSteps: int
    var selectionPhase: SelectionPhase
    var selectablePositions: seq<Position>
    var selected: Option<Position>
    const model: GameModel

    /**
     * Between clicks: two distinct dots; in SELECT_FROM nothing is selected and
     * only the player dot's cell is selectable; in SELECT_TO the player dot's
     * cell is selected and the selectable cells are its valid targets.
     */
    ghost predicate Valid()
      reads this, model, model.dots
    {
      && model.Valid() && |model.dots| == 2
      && (selectionPhase == SELECT_FROM ==> selected == None)
      && (selectionPhase == SELECT_TO ==> selected == Some(model.Positions()[0]))
      && selectablePositions == SelectableFor(selectionPhase, model.Positions(), selected)
    }

    /**
     * The dots as the default game keeps them: the player dot on the board
     * and the opponent dot opposite it through the centre cell.
     */
    ghost predicate Reflected()
      reads this, model, model.dots
      requires |model.dots| == 2
    {
      IsOnBoard(model.Positions()[0]) && model.Positions()[1] == Reflect(model.Positions()[0])
    }

    /** The field initialisers and the non-visual part of `initialize()`. */
    constructor ()
      ensures Valid() && fresh(model) && fresh(model.dots[0]) && fresh(model.dots[1])
      ensures model.Positions() == [Position(0, 4), Position(6, 2)]
      ensures numberOfSteps == 1 && selectionPhase == SELECT_FROM && selected == None
      ensures selectablePositions == [Position(0, 4)]
      ensures Reflected()
    {
      numberOfSteps := 1;
      selectionPhase := SELECT_FROM;
      selectablePositions := [];
      selected := None;
      model := new GameModel.Default();
      new;
      SetSelectablePositions();
    }

    /**
     * `setSelectablePositions()`: the player dot's cell in SELECT_FROM; in
     * SELECT_TO the cell one step from the selection for each valid move of dot 0.
     */
    method SetSelectablePositions()
      requires model.Valid() && |model.dots| >= 1
      requires selectionPhase == SELECT_TO ==> selected.Some?
      modifies this`selectablePositions
      ensures selectablePositions == SelectableFor(selectionPhase, model.Positions(), selected)
    {
      selectablePositions := [];
      match selectionPhase
      case SELECT_FROM =>
        var p := model.GetDotPosition(0);
        selectablePositions := selectablePositions + [p];
      case SELECT_TO =>
        var res := model.GetValidMoves(0);
        var moves := res.value;
        var from := selected.value;
        var k := 0;
        while k < |moves|
          invariant 0 <= k <= |moves|
          invariant selectablePositions == Targets(from, moves[..k])
        {
          selectablePositions := selectablePositions + [MoveTo(from, moves[k])];
          k := k + 1;
        }
        assert moves[..k] == moves;
    }

    /** `alterSelectionPhase()`: switch phase and recompute the selectable cells. */
    method AlterSelectionPhase()
      requires model.Valid() && |model.dots| >= 1
      requires selectionPhase.Alter() == SELECT_TO ==> selected.Some?
      modifies this`selectionPhase, this`selectablePositions
      ensures selectionPhase == old(selectionPhase).Alter()
      ensures selectablePositions == SelectableFor(selectionPhase, model.Positions(), selected)
    {
      selectionPhase := selectionPhase.Alter();
      SetSelectablePositions();
    }

    /** `selectPosition(position)`. */
    method SelectPosition(position: Position)
      modifies this`selected
      ensures selected == Some(position)
    {
      selected := Some(position);
    }

    /** `deselectSelectedPosition()`: `selected` becomes null. */
    method DeselectSelectedPosition()
      modifies this`selected
      ensures selected == None
    {
      selected := None;
    }

    /**
     * The win test of `endState()`: when both dots share a cell, the step
     * count it records (the leaderboard file itself is not modelled).
     */
    method EndState() returns (score: Option<int>)
      requires |model.dots| == 2
      ensures score.Some? <==> model.Positions()[0] == model.Positions()[1]
      ensures score.Some? ==> score.value == numberOfSteps
    {
      var p0 := model.GetDotPosition(0);
      var p1 := model.GetDotPosition(1);
      if p0 == p1 {
        return Some(numberOfSteps);
      }
      score := None;
    }

    /**
     * `handleClickOnSquare(position)`. A click on a cell that is not
     * selectable does nothing. In SELECT_FROM a selectable click selects the
     * player dot. In SELECT_TO it moves the player dot onto the clicked cell
     * and the opponent dot by the opposite direction (unchecked), clears the
     * selection and counts a step. `scores` lists what `endState` records,
     * which it runs after each of the two dot moves.
     */
    method HandleClickOnSquare(position: Position) returns (scores: seq<int>)
      requires Valid()
      modifies this, model.dots
      ensures Valid()
      ensures position !in old(selectablePositions) ==>
        && selectionPhase == old(selectionPhase) && selected == old(selected)
        && selectablePositions == old(selectablePositions)
        && numberOfSteps == old(numberOfSteps)
        && model.Positions() == old(model.Positions()) && scores == []
      ensures old(selectionPhase) == SELECT_FROM && position in old(selectablePositions) ==>
        && position == old(model.Positions())[0]
        && selectionPhase == SELECT_TO && selected == Some(position)
        && numberOfSteps == old(numberOfSteps)
        && model.Positions() == old(model.Positions()) && scores == []
      ensures old(selectionPhase) == SELECT_TO && position in old(selectablePositions) ==>
        && model.Positions() == [position, Mirror(old(model.Positions())[1], old(model.Positions())[0], position)]
        && selectionPhase == SELECT_FROM && selected == None
        && numberOfSteps == old(numberOfSteps) + 1
        && scores == (if model.Positions()[0] == model.Positions()[1] then [old(numberOfSteps)] else [])
      ensures IsOnBoard(old(model.Positions())[0]) ==> IsOnBoard(model.Positions()[0])
      ensures old(Reflected()) ==> Reflected()
    {
      scores := [];
      match selectionPhase
      case SELECT_FROM =>
        if position in selectablePositions {
          SelectPosition(position);
          AlterSelectionPhase();
        }
      case SELECT_TO =>
        if position in selectablePositions {
          scores := MoveDots(position);
          DeselectSelectedPosition();
          AlterSelectionPhase();
          numberOfSteps := numberOfSteps + 1;
          if old(Reflected()) {
            MirrorKeepsReflection(old(model.Positions())[0], old(model.Positions())[1], position);
          }
        }
    }

    /**
     * The coupled move of the SELECT_TO arm: `of` of the difference between
     * the clicked and the selected cell moves the player dot; `of` of the
     * negated deltas moves the opponent dot, unchecked; `endState` runs after
     * each of the two moves (through the position listener), and only the
     * second can find the dots together.
     */
    method MoveDots(position: Position) returns (scores: seq<int>)
      requires Valid() && selectionPhase == SELECT_TO && position in selectablePositions
      modifies model.dots
      ensures model.Positions() == [position, Mirror(old(model.Positions())[1], old(model.Positions())[0], position)]
      ensures scores == (if model.Positions()[0] == model.Positions()[1] then [numberOfSteps] else [])
      ensures IsOnBoard(position)
    {
      scores := [];
      var sel := selected.value;
      ghost var ps := model.Positions();
      ClickedTargetDirection(ps, sel, position);
      var direction := Of(position.row - sel.row, position.col - sel.col).value;
      var inverseDirectionRowChange := RowChange(direction) * -1;
      var inverseDirectionColChange := ColChange(direction) * -1;
      var inverseDirection := Of(inverseDirectionRowChange, inverseDirectionColChange).value;

      model.Move(0, direction);
      var first := EndState();
      assert first == None by {
        PlayerLegNeverWins(ps, direction);
      }
      model.Move(1, inverseDirection);
      var second := EndState();
      assert model.Positions() == [position, Mirror(ps[1], sel, position)] by {
        MirrorIsOppositeMove(sel, ps[1], direction);
      }
      if second.Some? {
        scores := [second.value];
      }
    }
  }
}

/**
 * A play-through from the default layout: the player dot goes DOWN three
 * times and LEFT once, the opponent dot mirrors it (UP three times, RIGHT),
 * and the two meet on (3,3) after four moves, when `endState` records 4.
 */
module Playthrough {
  import opened Directions
  import opened Positions
  import opened Model
  import opened Controller

  /** The player dot's route, the opponent dot's mirrored route, and the moves between them. */
  const PlayerRoute: seq<Position> := [Position(0, 4), Position(1, 4), Position(2, 4), Position(3, 4), Position(3, 3)]
  const OpponentRoute: seq<Position> := [Position(6, 2), Position(5, 2), Position(4, 2), Position(3, 2), Position(3, 3)]
  const Plan: seq<PlayerDirection> := [DOWN, DOWN, DOWN, LEFT]

  /** Every move of the plan is valid for the player dot and the routes follow the coupled rule. */
  lemma PlanFollowsRules(k: int)
    requires 0 <= k < 4
    ensures CanMove([PlayerRoute[k], OpponentRoute[k]], 0, Plan[k])
    ensures MoveTo(PlayerRoute[k], Plan[k]) == PlayerRoute[k + 1]
    ensures MoveTo(OpponentRoute[k], Opposite(Plan[k])) == OpponentRoute[k + 1]
    ensures PlayerRoute[k + 1] == OpponentRoute[k + 1] <==> k == 3
  {
  }

  method SolveDefaultPuzzle() returns (c: GameController, recorded: seq<int>)
    ensures c.Valid() && c.model.Positions() == [Position(3, 3), Position(3, 3)]
    ensures c.numberOfSteps == 5 && c.selectionPhase == SELECT_FROM
    ensures recorded == [4]
  {
    c := new GameController();
    recorded := [];
    var k := 0;
    while k < 4
      invariant 0 <= k <= 4
      invariant c.Valid() && c.selectionPhase == SELECT_FROM && c.numberOfSteps == k + 1
      invariant c.model.Positions() == [PlayerRoute[k], OpponentRoute[k]]
      invariant recorded == if k == 4 then [4] else []
      modifies c, c.model.dots
    {
      var scores := PlayPlannedMove(c, k);
      recorded := recorded + scores;
      k := k + 1;
    }
  }

  /** The two clicks of move `k` of the plan: the player dot, then its target. */
  method PlayPlannedMove(c: GameController, k: int) returns (scores: seq<int>)
    requires 0 <= k < 4
    requires c.Valid() && c.selectionPhase == SELECT_FROM && c.numberOfSteps == k + 1
    requires c.model.Positions() == [PlayerRoute[k], OpponentRoute[k]]
    modifies c, c.model.dots
    ensures c.Valid() && c.selectionPhase == SELECT_FROM && c.numberOfSteps == k + 2
    ensures c.model.Positions() == [PlayerRoute[k + 1], OpponentRoute[k + 1]]
    ensures scores == if k == 3 then [4] else []
  {
    var from := PlayerRoute[k];
    var select := c.HandleClickOnSquare(from);
    ghost var ps := c.model.Positions();
    var to := MoveTo(from, Plan[k]);
    PlanFollowsRules(k);
    assert to in c.selectablePositions by {
      ValidMovesExactly(ps, 0);
    }
    var move := c.HandleClickOnSquare(to);
    MirrorIsOppositeMove(from, OpponentRoute[k], Plan[k]);
    scores := select + move;
  }
}
