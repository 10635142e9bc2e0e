/** The game's state: the timeline of board snapshots, the move being shown,
    the board size and the move-list order, with the transitions the user
    interface triggers. */
module MoveHistory {
  import opened Board
  import opened WinEvaluator

  /** Every fresh snapshot has nine squares, whatever the board size. */
  const InitialSquares: nat := 9

  /** The board size the game starts with. */
  const InitialBoardSize: nat := 3

  /** X plays when the move index is even. */
  predicate IsXTurn(move: nat)
  {
    move % 2 == 0
  }

  /** The mark placed by the move made from snapshot `move`. */
  function TurnMark(move: nat): (c: Cell)
    ensures c != Empty
    ensures c == X <==> IsXTurn(move)
  {
    if IsXTurn(move) then X else O
  }

  /** `after` is `before` with `mark` written into one square that was empty. */
  ghost predicate IsMove(before: Squares, after: Squares, mark: Cell)
  {
    exists k: nat :: At(before, k) == Empty && after == Write(before, k, mark)
  }

  /** A timeline of play: it starts from the empty nine-square board and each
      snapshot follows the previous one by a move of the player whose turn
      it was. */
  ghost predicate Played(history: seq<Squares>)
  {
    |history| >= 1 && history[0] == Empties(InitialSquares)
    && forall i :: 0 <= i < |history| - 1 ==> IsMove(history[i], history[i + 1], TurnMark(i))
  }

  /** A move of mark `m` adds one `m` to the board and leaves the other mark's
      count alone. */
  lemma MoveCounts(before: Squares, after: Squares, m: Cell)
    requires IsMove(before, after, m)
    ensures multiset(after)[X] == multiset(before)[X] + (if m == X then 1 else 0)
    ensures multiset(after)[O] == multiset(before)[O] + (if m == O then 1 else 0)
  {
    var k: nat :| At(before, k) == Empty && after == Write(before, k, m);
    WriteCount(before, k, m, X);
    WriteCount(before, k, m, O);
  }

  /** After `i` moves of a timeline, X has made `(i + 1) / 2` of them and O
      `i / 2`: the players alternate, X first. */
  lemma {:induction false} PlayedCounts(history: seq<Squares>, i: nat)
    requires Played(history) && i < |history|
    ensures multiset(history[i])[X] == (i + 1) / 2
    ensures multiset(history[i])[O] == i / 2
  {
    if i == 0 {
      EmptiesHoldNoMark(InitialSquares, X);
      EmptiesHoldNoMark(InitialSquares, O);
    } else {
      PlayedCounts(history, i - 1);
      PlayedStep(history, i);
      MoveCounts(history[i - 1], history[i], TurnMark(i - 1));
      TurnCounts(i);
    }
  }

  /** Each snapshot after the first is a move of the player whose turn it was. */
  lemma PlayedStep(history: seq<Squares>, i: nat)
    requires Played(history) && 1 <= i < |history|
    ensures IsMove(history[i - 1], history[i], TurnMark(i - 1))
  {
  }

  /** Move `i - 1` is X's exactly when it raises X's share `(i + 1) / 2`
      by one; otherwise it raises O's share `i / 2`. */
  lemma TurnCounts(i: nat)
    requires i >= 1
    ensures TurnMark(i - 1) == X ==> (i + 1) / 2 == i / 2 + 1 && i / 2 == (i - 1) / 2
    ensures TurnMark(i - 1) == O ==> (i + 1) / 2 == i / 2 && i / 2 == (i - 1) / 2 + 1
  {
  }

  /** Branching off snapshot `a` with a move of the right player keeps a
      timeline of play. */
  lemma PlayedBranch(history: seq<Squares>, a: nat, next: Squares)
    requires Played(history) && a < |history|
    requires IsMove(history[a], next, TurnMark(a))
    ensures Played(history[..a + 1] + [next])
  {
  }

  /** The step a move-list entry jumps to: the entry's own index when the list
      is ascending, counted from the end when it is descending. */
  function CalculatedStep(sortAscending: bool, historyLength: nat, move: nat): int
  {
    if sortAscending then move else historyLength - 1 - move
  }

  /** The steps the move list offers a button for: each entry whose step is
      at least 1. */
  function OfferedSteps(sortAscending: bool, historyLength: nat): set<int>
  {
    set move | 0 <= move < historyLength && CalculatedStep(sortAscending, historyLength, move) >= 1
      :: CalculatedStep(sortAscending, historyLength, move)
  }

  /** The move list offers a button for exactly the steps 1 .. length - 1,
      in either order, so every button targets an existing snapshot. */
  lemma MoveListSteps(sortAscending: bool, historyLength: nat)
    ensures forall step :: step in OfferedSteps(sortAscending, historyLength) <==> 1 <= step < historyLength
  {
    forall step | 1 <= step < historyLength
      ensures step in OfferedSteps(sortAscending, historyLength)
    {
      var move := if sortAscending then step else historyLength - 1 - step;
      assert CalculatedStep(sortAscending, historyLength, move) == step;
    }
  }

  class Game {
    /** The timeline of snapshots. */
    var moveHistory: seq<Squares>
    /** Index of the snapshot shown and played from. */
    var activeMove: nat
    /** Side of the board used to draw it and to evaluate lines. */
    var boardSize: nat
    /** Last value typed into the size field. */
    var boardSizeInput: nat
    /** Order of the move list. */
    var sortAscending: bool

    /** The shown snapshot exists, and the timeline starts from the empty
        nine-square board. */
    ghost predicate Valid()
      reads this
    {
      activeMove < |moveHistory| && moveHistory[0] == Empties(InitialSquares)
    }

    constructor ()
      ensures Valid() && Played(moveHistory)
      ensures moveHistory == [Empties(InitialSquares)] && activeMove == 0
      ensures boardSize == InitialBoardSize && boardSizeInput == InitialBoardSize
      ensures sortAscending
    {
      moveHistory := [Empties(InitialSquares)];
      activeMove := 0;
      boardSize := InitialBoardSize;
      boardSizeInput := InitialBoardSize;
      sortAscending := true;
    }

    /** The snapshot shown. */
    function CurrentSquares(): (squares: Squares)
      reads this
      requires Valid()
      ensures squares in moveHistory
    {
      moveHistory[activeMove]
    }

    /** Commit `nextSquares` after the shown snapshot, discarding every later
        one, and show it. */
    method HandleMove(nextSquares: Squares)
      requires Valid()
      modifies this
      ensures Valid()
      ensures moveHistory == old(moveHistory[..activeMove + 1]) + [nextSquares]
      ensures activeMove == old(activeMove) + 1 && CurrentSquares() == nextSquares
      ensures forall i :: 0 <= i < activeMove ==> moveHistory[i] == old(moveHistory[i])
      ensures old(Played(moveHistory) && IsMove(CurrentSquares(), nextSquares, TurnMark(activeMove)))
              ==> Played(moveHistory)
      ensures boardSize == old(boardSize) && boardSizeInput == old(boardSizeInput)
      ensures sortAscending == old(sortAscending)
    {
      if Played(moveHistory) && IsMove(moveHistory[activeMove], nextSquares, TurnMark(activeMove)) {
        PlayedBranch(moveHistory, activeMove, nextSquares);
      }
      var newHistory := moveHistory[..activeMove + 1] + [nextSquares];
      moveHistory := newHistory;
      activeMove := |newHistory| - 1;
    }

    /** Show snapshot `step`; going to step 0 also starts a new timeline from
        the empty nine-square board. */
    method GoToMove(step: nat)
      requires Valid() && step < |moveHistory|
      modifies this
      ensures Valid()
      ensures activeMove == step
      ensures step == 0 ==> moveHistory == [Empties(InitialSquares)]
      ensures step != 0 ==> moveHistory == old(moveHistory)
      ensures old(Played(moveHistory)) ==> Played(moveHistory)
      ensures boardSize == old(boardSize) && boardSizeInput == old(boardSizeInput)
      ensures sortAscending == old(sortAscending)
    {
      if step == 0 {
        moveHistory := [Empties(InitialSquares)];
      }
      activeMove := step;
    }

    /** A click on square `index`: ignored when the square is taken or the
        shown snapshot already has a winner; otherwise the player whose turn
        it is marks the square and the result is committed. */
    method HandleSquareClick(index: nat)
      requires Valid()
      modifies this
      ensures Valid()
      ensures old(At(CurrentSquares(), index) != Empty || Winner(CurrentSquares(), boardSize) != Empty)
              ==> moveHistory == old(moveHistory) && activeMove == old(activeMove)
      ensures old(At(CurrentSquares(), index) == Empty && Winner(CurrentSquares(), boardSize) == Empty)
              ==> moveHistory[..activeMove] == old(moveHistory[..activeMove + 1])
                  && |moveHistory| == activeMove + 1
                  && activeMove == old(activeMove) + 1
                  && At(CurrentSquares(), index) == TurnMark(old(activeMove))
                  && forall k :: k != index ==> At(CurrentSquares(), k) == old(At(CurrentSquares(), k))
      ensures old(Played(moveHistory)) ==> Played(moveHistory)
      ensures boardSize == old(boardSize) && boardSizeInput == old(boardSizeInput)
      ensures sortAscending == old(sortAscending)
    {
      var squares := CurrentSquares();
      if At(squares, index) != Empty {
        return;
      }
      var winner := DetermineWinner(squares, boardSize);
      if winner != Empty {
        return;
      }
      var nextSquares := Write(squares, index, if IsXTurn(activeMove) then X else O);
      assert IsMove(squares, nextSquares, TurnMark(activeMove));
      HandleMove(nextSquares);
    }

    /** The size field's key handler: a negative value is ignored; Enter
        stores the value as the board size. */
    method HandleKeyDown(value: int, isEnter: bool)
      requires Valid()
      modifies this
      ensures Valid()
      ensures boardSize == if value >= 0 && isEnter then value else old(boardSize)
      ensures moveHistory == old(moveHistory) && activeMove == old(activeMove)
      ensures boardSizeInput == old(boardSizeInput) && sortAscending == old(sortAscending)
    {
      if value < 0 {
        return;
      }
      if isEnter {
        boardSize := value;
      }
    }

    /** The Update button: a negative value is ignored, any other value
        becomes the board size. */
    method HandleBoardSizeUpdate(inputValue: int)
      requires Valid()
      modifies this
      ensures Valid()
      ensures boardSize == if inputValue >= 0 then inputValue else old(boardSize)
      ensures moveHistory == old(moveHistory) && activeMove == old(activeMove)
      ensures boardSizeInput == old(boardSizeInput) && sortAscending == old(sortAscending)
    {
      if inputValue < 0 {
        return;
      }
      boardSize := inputValue;
    }

    /** Typing into the size field: a negative value is ignored, any other
        value becomes both the field's value and the board size. */
    method HandleInputChange(value: int)
      requires Valid()
      modifies this
      ensures Valid()
      ensures value >= 0 ==> boardSize == value && boardSizeInput == value
      ensures value < 0 ==> boardSize == old(boardSize) && boardSizeInput == old(boardSizeInput)
      ensures moveHistory == old(moveHistory) && activeMove == old(activeMove)
      ensures sortAscending == old(sortAscending)
    {
      if value < 0 {
        return;
      }
      boardSizeInput := value;
      boardSize := value;
    }

    /** The sort checkbox flips the order of the move list and nothing else. */
    method ToggleSort()
      requires Valid()
      modifies this
      ensures Valid()
      ensures sortAscending == !old(sortAscending)
      ensures moveHistory == old(moveHistory) && activeMove == old(activeMove)
      ensures boardSize == old(boardSize) && boardSizeInput == old(boardSizeInput)
    {
      sortAscending := !sortAscending;
    }
  }
}
