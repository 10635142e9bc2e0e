/** Worked boards and a worked timeline, checked against the model. */
module Scenarios {
  import opened Board
  import opened WinLines
  import opened WinEvaluator
  import opened MoveHistory

  /** X filling the top row of a 3×3 board wins. */
  lemma TopRowWins()
    ensures Winner([X, X, X, O, O, Empty, Empty, Empty, Empty], 3) == X
  {
    assert Lines(3)[0] == [0, 1, 2];
  }

  /** X filling the left column wins once every row has failed. */
  lemma LeftColumnWins()
    ensures Winner([X, O, Empty, X, O, Empty, X, Empty, Empty], 3) == X
  {
    LinesShape(3);
    assert Lines(3)[0] == [0, 1, 2];
    assert Lines(3)[1] == [3, 4, 5];
    assert Lines(3)[2] == [6, 7, 8];
    assert Lines(3)[3] == [0, 3, 6];
    assert Lines(3)[1..][1..][1..] == Lines(3)[3..];
  }

  /** A 4×4 board with X on squares 0, 5, 10 and 15 and nothing else. */
  function Diagonal4(): Squares
  {
    [X, Empty, Empty, Empty, Empty, X, Empty, Empty, Empty, Empty, X, Empty, Empty, Empty, Empty, X]
  }

  /** X on the main diagonal of a 4×4 board wins. */
  lemma MainDiagonalWinsOnFour()
    ensures Winner(Diagonal4(), 4) == X
  {
    LinesShape(4);
    assert Lines(4)[0] == [0, 1, 2, 3];
    assert Lines(4)[1] == [4, 5, 6, 7];
    assert Lines(4)[2] == [8, 9, 10, 11];
    assert Lines(4)[3] == [12, 13, 14, 15];
    assert Lines(4)[4] == [0, 4, 8, 12];
    assert Lines(4)[5] == [1, 5, 9, 13];
    assert Lines(4)[6] == [2, 6, 10, 14];
    assert Lines(4)[7] == [3, 7, 11, 15];
    assert Lines(4)[8] == [0, 5, 10, 15];
    assert Lines(4)[8..] == Lines(4)[1..][1..][1..][1..][1..][1..][1..][1..];
  }

  /** A full board without three in a row reports no winner: a draw is not
      told apart from a game in progress. */
  lemma FullBoardNoWinner()
    ensures Winner([X, O, X, O, X, O, O, X, O], 3) == Empty
  {
    var s := [X, O, X, O, X, O, O, X, O];
    LinesShape(3);
    FirstWinnerIsFirstUniform(s, Lines(3));
    assert Lines(3)[0] == [0, 1, 2];
    assert Lines(3)[1] == [3, 4, 5];
    assert Lines(3)[2] == [6, 7, 8];
    assert Lines(3)[3] == [0, 3, 6];
    assert Lines(3)[4] == [1, 4, 7];
    assert Lines(3)[5] == [2, 5, 8];
    assert Lines(3)[6] == [0, 4, 8];
    assert Lines(3)[7] == [2, 4, 6];
  }

  /** One X in the corner is no win yet. */
  lemma OneMarkNoWinner()
    ensures Winner(Write(Empties(9), 0, X), 3) == Empty
  {
    var s := Write(Empties(9), 0, X);
    assert s == [X, Empty, Empty, Empty, Empty, Empty, Empty, Empty, Empty];
    LinesShape(3);
    FirstWinnerIsFirstUniform(s, Lines(3));
    assert Lines(3)[0] == [0, 1, 2];
    assert Lines(3)[3] == [0, 3, 6];
    assert Lines(3)[6] == [0, 4, 8];
    forall t | 0 <= t < |Lines(3)|
      ensures !Uniform(s, Lines(3)[t])
    {
    }
  }

  /** Two moves, a jump back to move 1 and a third move: the old second move
      is discarded, so the timeline holds three snapshots; going to the
      start then leaves only the empty board. */
  method BranchingTimeline()
  {
    var game := new Game();
    NoMarkNoWinner(game.CurrentSquares(), game.boardSize);
    game.HandleSquareClick(0);
    OneMarkNoWinner();
    game.HandleSquareClick(4);
    assert |game.moveHistory| == 3 && game.activeMove == 2;
    game.GoToMove(1);
    OneMarkNoWinner();
    game.HandleSquareClick(8);
    assert |game.moveHistory| == 3 && game.activeMove == 2;
    assert At(game.CurrentSquares(), 8) == O && At(game.CurrentSquares(), 4) == Empty;
    game.GoToMove(0);
    assert game.moveHistory == [Empties(9)] && game.activeMove == 0;
  }
}
