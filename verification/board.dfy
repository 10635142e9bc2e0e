/** Squares of a tic-tac-toe board as the game stores them: one snapshot is an
    array of marks indexed row-major (row * size + column). */
module Board {

  /** One square. `Empty` stands for both `null` (a square nobody played) and
      `undefined` (a read past the end of the array, or a hole left when a
      write grew it): both are falsy and neither equals a mark. */
  datatype Cell = Empty | X | O

  /** One board snapshot. Its length is not tied to the board size: the
      initial snapshot always has nine squares. */
  type Squares = seq<Cell>

  /** A snapshot of `n` empty squares (`Array(n).fill(null)`). */
  function Empties(n: nat): (s: Squares)
    ensures |s| == n
    ensures forall k :: 0 <= k < |s| ==> s[k] == Empty
  {
    seq(n, _ => Empty)
  }

  /** Reading square `k`: any index outside the array reads as empty. */
  function At(s: Squares, k: int): Cell
  {
    if 0 <= k < |s| then s[k] else Empty
  }

  /** The holes a write past the end pads in read exactly like the missing
      tail they replace (both are `undefined` in the source), and a read
      yields a mark only from inside the array. */
  lemma HolesReadAsEnd(s: Squares, m: nat, k: int)
    ensures At(s + Empties(m), k) == At(s, k)
    ensures At(s, k) != Empty ==> 0 <= k < |s|
  {
  }

  /** Assigning square `k` of a copy of `s`: inside the array the square is
      replaced; past the end the array grows to `k + 1` squares and the new
      holes read as empty. */
  function Write(s: Squares, k: nat, c: Cell): (r: Squares)
    ensures |r| == if k < |s| then |s| else k + 1
    ensures At(r, k) == c
    ensures forall j :: j != k ==> At(r, j) == At(s, j)
  {
    if k < |s| then s[k := c] else s + Empties(k - |s|) + [c]
  }

  /** No mark occurs in an empty snapshot. */
  lemma EmptiesHoldNoMark(n: nat, c: Cell)
    requires c != Empty
    ensures multiset(Empties(n))[c] == 0
  {
    assert c !in Empties(n);
  }

  /** Writing mark `m` into an empty square adds one `m` to the board and
      leaves the number of the other mark alone. */
  lemma WriteCount(s: Squares, k: nat, m: Cell, c: Cell)
    requires At(s, k) == Empty && c != Empty
    ensures multiset(Write(s, k, m))[c] == multiset(s)[c] + (if m == c then 1 else 0)
  {
    var r := Write(s, k, m);
    if k < |s| {
      var before, after := s[..k], s[k + 1..];
      assert s == before + [Empty] + after;
      assert r == before + [m] + after;
      assert multiset(s) == multiset(before) + multiset{Empty} + multiset(after);
      assert multiset(r) == multiset(before) + multiset{m} + multiset(after);
    } else {
      var holes := Empties(k - |s|);
      EmptiesHoldNoMark(k - |s|, c);
      assert r == s + holes + [m];
      assert multiset(r) == multiset(s) + multiset(holes) + multiset{m};
    }
  }
}
