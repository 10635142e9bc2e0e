/** Winner evaluation: scan the candidate lines of an N×N board in order and
    report the mark of the first line whose squares all hold one mark. */
module WinEvaluator {
  import opened Board
  import opened WinLines

  /** The test applied to one line `[first, second, third, ...rest]`: the
      first square is marked and the second, the third and every later
      square hold the same mark. A line of fewer than three squares never
      passes, because a missing `second` or `third` reads as undefined. */
  predicate Uniform(s: Squares, line: Line)
  {
    |line| >= 3 && At(s, line[0]) != Empty
    && At(s, line[0]) == At(s, line[1])
    && At(s, line[0]) == At(s, line[2])
    && forall t :: 3 <= t < |line| ==> At(s, line[0]) == At(s, line[t])
  }

  /** Every square of `line` holds `m`. */
  ghost predicate Filled(s: Squares, line: Line, m: Cell)
  {
    forall t :: 0 <= t < |line| ==> At(s, line[t]) == m
  }

  /** Line `t` is the first line of `lines` that passes the test. */
  ghost predicate FirstUniform(s: Squares, lines: seq<Line>, t: int)
  {
    0 <= t < |lines| && Uniform(s, lines[t])
    && forall u :: 0 <= u < t ==> !Uniform(s, lines[u])
  }

  /** The mark of the first passing line of `lines`, or `Empty` (the
      source's `null`) when none passes. */
  function FirstWinner(s: Squares, lines: seq<Line>): Cell
  {
    if lines == [] then Empty
    else if Uniform(s, lines[0]) then At(s, lines[0][0])
    else FirstWinner(s, lines[1..])
  }

  /** The winner of snapshot `s` on a board of side `n`. */
  function Winner(s: Squares, n: nat): Cell
  {
    FirstWinner(s, Lines(n))
  }

  /** The source's evaluator: build the lines, then return the mark of the
      first passing line, scanning in order and stopping at the first hit. */
  method DetermineWinner(squares: Squares, boardSize: nat) returns (winner: Cell)
    ensures winner == Winner(squares, boardSize)
  {
    var winningLines := GenerateWinningLines(boardSize);
    for i := 0 to |winningLines|
      invariant FirstWinner(squares, winningLines[i..]) == Winner(squares, boardSize)
    {
      var line := winningLines[i];
      assert winningLines[i..][1..] == winningLines[i + 1..];
      if Uniform(squares, line) {
        return At(squares, line[0]);
      }
    }
    return Empty;
  }

  /** A passing line is filled with one mark, which is not `Empty`; and a
      line of at least three squares filled with a mark passes. */
  lemma UniformIsFilled(s: Squares, line: Line)
    ensures Uniform(s, line) <==> |line| >= 3 && At(s, line[0]) != Empty && Filled(s, line, At(s, line[0]))
  {
  }

  /** The scan returns a mark exactly when some line passes; the mark is
      then the one filling the first passing line. */
  lemma {:induction false} FirstWinnerIsFirstUniform(s: Squares, lines: seq<Line>)
    ensures FirstWinner(s, lines) == Empty <==> forall t :: 0 <= t < |lines| ==> !Uniform(s, lines[t])
    ensures FirstWinner(s, lines) != Empty ==>
      exists t :: FirstUniform(s, lines, t) && Filled(s, lines[t], FirstWinner(s, lines))
  {
    if lines != [] {
      FirstWinnerIsFirstUniform(s, lines[1..]);
      if Uniform(s, lines[0]) {
        assert FirstUniform(s, lines, 0);
      } else if FirstWinner(s, lines) != Empty {
        var t :| FirstUniform(s, lines[1..], t) && Filled(s, lines[1..][t], FirstWinner(s, lines));
        assert FirstUniform(s, lines, t + 1);
      }
      assert forall t :: 1 <= t < |lines| ==> lines[t] == lines[1..][t - 1];
    }
  }

  /** A winner owns a whole row, column or diagonal of an N×N board with
      N at least three. */
  lemma WinnerOwnsLine(s: Squares, n: nat)
    requires Winner(s, n) != Empty
    ensures n >= 3
    ensures var m := Winner(s, n);
      (exists i :: 0 <= i < n && Filled(s, Row(n, i), m))
      || (exists i :: 0 <= i < n && Filled(s, Column(n, i), m))
      || Filled(s, MainDiagonal(n), m)
      || Filled(s, AntiDiagonal(n), m)
  {
    FirstWinnerIsFirstUniform(s, Lines(n));
    LinesShape(n);
    var t :| FirstUniform(s, Lines(n), t) && Filled(s, Lines(n)[t], Winner(s, n));
    if t < n {
      assert Lines(n)[t] == Row(n, t);
    } else if t < 2 * n {
      assert Lines(n)[t] == Column(n, t - n);
    }
  }

  /** Conversely, once N is at least three, any line filled with a mark
      means the evaluator reports some winner (the first passing line may
      belong to either player). */
  lemma FilledLineWins(s: Squares, n: nat, t: nat, m: Cell)
    requires n >= 3 && t < 2 * n + 2 && m != Empty
    requires Filled(s, Lines(n)[t], m)
    ensures Winner(s, n) != Empty
  {
    LinesShape(n);
    FirstWinnerIsFirstUniform(s, Lines(n));
    assert Uniform(s, Lines(n)[t]);
  }

  /** On boards smaller than 3×3 nobody ever wins: every line is shorter
      than three squares. */
  lemma NoWinnerBelowThree(s: Squares, n: nat)
    requires n < 3
    ensures Winner(s, n) == Empty
  {
    LinesShape(n);
    FirstWinnerIsFirstUniform(s, Lines(n));
  }

  /** A board without any mark has no winner, whatever its size. */
  lemma NoMarkNoWinner(s: Squares, n: nat)
    requires forall k :: 0 <= k < |s| ==> s[k] == Empty
    ensures Winner(s, n) == Empty
  {
    FirstWinnerIsFirstUniform(s, Lines(n));
    forall t | 0 <= t < |Lines(n)|
      ensures !Uniform(s, Lines(n)[t])
    {
    }
  }
}
