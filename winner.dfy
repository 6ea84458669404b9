/**
 * Classification of a tic-tac-toe board: a win for one mark on the first of
 * eight fixed lines, a tie on a full board, or a game still in progress
 * (calculateWinner in src/index.js).
 */
module Winner {

  /** The mark a player puts on a square ('X' or 'O' in the app). */
  datatype Mark = X | O

  /** One square: empty (null in the app) or holding a mark. */
  datatype Cell = Empty | Filled(mark: Mark)

  /** A square index, row-major: index = row * 3 + col with row, col in 0..2. */
  type Index = k: nat | k < 9

  /** The nine squares of one board. */
  type Board = s: seq<Cell> | |s| == 9
    witness [Empty, Empty, Empty, Empty, Empty, Empty, Empty, Empty, Empty]

  /** The board at the start of a game, Array(9).fill(null). */
  const EmptyBoard: Board := [Empty, Empty, Empty, Empty, Empty, Empty, Empty, Empty, Empty]

  /** Three squares in a row, column or diagonal. */
  datatype Line = Line(a: Index, b: Index, c: Index)

  /** The eight lines, in the order in which they are scanned. */
  const Lines: seq<Line> := [
    Line(0, 1, 2),
    Line(3, 4, 5),
    Line(6, 7, 8),
    Line(0, 3, 6),
    Line(1, 4, 7),
    Line(2, 5, 8),
    Line(0, 4, 8),
    Line(2, 4, 6)
  ]

  /**
   * The classification of a board. The app returns the winning mark, 'tie'
   * or null; the winning line, which the app highlights on screen, is
   * returned here as part of the result.
   */
  datatype Outcome = InProgress | Win(mark: Mark, line: Line) | Tie

  /** The three squares of line l are non-empty and hold the same mark. */
  predicate LineWins(s: Board, l: Line) {
    s[l.a].Filled? && s[l.a] == s[l.b] && s[l.a] == s[l.c]
  }

  /** Some one of the eight lines wins. */
  predicate SomeLineWins(s: Board) {
    exists k :: 0 <= k < |Lines| && LineWins(s, Lines[k])
  }

  /** Line number k wins and no line before it in the scan order does. */
  predicate FirstWinning(s: Board, k: int) {
    0 <= k < |Lines| && LineWins(s, Lines[k]) &&
    forall j :: 0 <= j < k ==> !LineWins(s, Lines[j])
  }

  /** Every square is non-empty. */
  predicate AllFilled(s: seq<Cell>) {
    forall k :: 0 <= k < |s| ==> s[k].Filled?
  }

  /**
   * The number of the first line, scanning from line `from`, that wins, or
   * |Lines| when none does.
   */
  function FirstWin(s: Board, from: nat): (k: nat)
    requires from <= |Lines|
    ensures from <= k <= |Lines|
    ensures k < |Lines| ==> LineWins(s, Lines[k])
    ensures forall j :: from <= j < k ==> !LineWins(s, Lines[j])
    decreases |Lines| - from
  {
    if from == |Lines| then |Lines|
    else if LineWins(s, Lines[from]) then from
    else FirstWin(s, from + 1)
  }

  /**
   * The outcome of a board (EvaluateSpec states it in full): a win names one
   * of the eight lines, whose squares all hold the winning mark, and a tie
   * is a full board.
   */
  function Evaluate(s: Board): (r: Outcome)
    ensures r.Win? ==> r.line in Lines && LineWins(s, r.line) && s[r.line.a] == Filled(r.mark)
    ensures r == Tie ==> AllFilled(s)
  {
    var k := FirstWin(s, 0);
    if k < |Lines| then Win(s[Lines[k].a].mark, Lines[k])
    else if AllFilled(s) then Tie
    else InProgress
  }

  /**
   * The outcome of a board: the first winning line in scan order decides the
   * winner, and a winning line takes precedence over a full board; with no
   * winning line a full board is a tie and any other board is in progress.
   */
  lemma EvaluateSpec(s: Board)
    ensures Evaluate(s).Win? <==> SomeLineWins(s)
    ensures forall k :: FirstWinning(s, k) ==> Evaluate(s) == Win(s[Lines[k].a].mark, Lines[k])
    ensures Evaluate(s) == Tie <==> !SomeLineWins(s) && AllFilled(s)
    ensures Evaluate(s) == InProgress <==> !SomeLineWins(s) && !AllFilled(s)
  {
  }

  /** When some line wins, one of them is the first in scan order. */
  lemma FirstWinningExists(s: Board)
    requires SomeLineWins(s)
    ensures exists k :: FirstWinning(s, k)
  {
    var k := FirstWin(s, 0);
    assert FirstWinning(s, k);
  }

  /**
   * Evaluate written out line by line, the eight tests in the order of the
   * scan; with the winner mark taken from the line's first square.
   */
  lemma EvaluateUnrolled(s: Board)
    ensures Evaluate(s) ==
      if LineWins(s, Line(0, 1, 2)) then Win(s[0].mark, Line(0, 1, 2))
      else if LineWins(s, Line(3, 4, 5)) then Win(s[3].mark, Line(3, 4, 5))
      else if LineWins(s, Line(6, 7, 8)) then Win(s[6].mark, Line(6, 7, 8))
      else if LineWins(s, Line(0, 3, 6)) then Win(s[0].mark, Line(0, 3, 6))
      else if LineWins(s, Line(1, 4, 7)) then Win(s[1].mark, Line(1, 4, 7))
      else if LineWins(s, Line(2, 5, 8)) then Win(s[2].mark, Line(2, 5, 8))
      else if LineWins(s, Line(0, 4, 8)) then Win(s[0].mark, Line(0, 4, 8))
      else if LineWins(s, Line(2, 4, 6)) then Win(s[2].mark, Line(2, 4, 6))
      else if AllFilled(s) then Tie
      else InProgress
  {
  }

  /** The number of non-empty squares in s. */
  function CountFilled(s: seq<Cell>): (n: nat)
    ensures n <= |s|
  {
    if |s| == 0 then 0
    else CountFilled(s[..|s| - 1]) + (if s[|s| - 1].Filled? then 1 else 0)
  }

  /** The count reaches the length exactly when every square is filled. */
  lemma {:induction false} CountFilledAll(s: seq<Cell>)
    ensures CountFilled(s) == |s| <==> AllFilled(s)
  {
    if |s| > 0 {
      var t := s[..|s| - 1];
      CountFilledAll(t);
      assert forall k :: 0 <= k < |t| ==> t[k] == s[k];
      if !s[|s| - 1].Filled? {
        assert !AllFilled(s);
      }
    }
  }

  /** Filling one empty square raises the count by exactly one. */
  lemma {:induction false} CountFilledPlace(s: seq<Cell>, i: nat, m: Mark)
    requires i < |s| && s[i] == Empty
    ensures CountFilled(s[i := Filled(m)]) == CountFilled(s) + 1
  {
    var s' := s[i := Filled(m)];
    var n := |s| - 1;
    if i == n {
      assert s'[..n] == s[..n];
    } else {
      assert s'[..n] == s[..n][i := Filled(m)];
      CountFilledPlace(s[..n], i, m);
    }
  }

  /** The number of squares holding mark m. */
  function CountMark(s: seq<Cell>, m: Mark): (n: nat)
    ensures n <= CountFilled(s)
  {
    if |s| == 0 then 0
    else CountMark(s[..|s| - 1], m) + (if s[|s| - 1] == Filled(m) then 1 else 0)
  }

  /** Filling one empty square with m adds one m and leaves the count of the other mark alone. */
  lemma {:induction false} CountMarkPlace(s: seq<Cell>, i: nat, m: Mark, m': Mark)
    requires i < |s| && s[i] == Empty
    ensures CountMark(s[i := Filled(m)], m') == CountMark(s, m') + (if m == m' then 1 else 0)
  {
    var s' := s[i := Filled(m)];
    var n := |s| - 1;
    if i == n {
      assert s'[..n] == s[..n];
    } else {
      assert s'[..n] == s[..n][i := Filled(m)];
      CountMarkPlace(s[..n], i, m, m');
    }
  }

  /**
   * calculateWinner: scan the eight lines, returning at the first that wins;
   * otherwise count the filled squares and report a tie as soon as the count
   * reaches the number of squares.
   */
  method CalculateWinner(squares: Board) returns (r: Outcome)
    ensures r == Evaluate(squares)
  {
    var i := 0;
    while i < |Lines|
      invariant 0 <= i <= |Lines|
      invariant forall j :: 0 <= j < i ==> !LineWins(squares, Lines[j])
    {
      var line := Lines[i];
      var a, b, c := line.a, line.b, line.c;
      if squares[a].Filled? && squares[a] == squares[b] && squares[a] == squares[c] {
        assert FirstWinning(squares, i);
        return Win(squares[a].mark, line);
      }
      i := i + 1;
    }
    assert !SomeLineWins(squares);

    var n := 0;
    var count := 0;
    while n < |squares|
      invariant 0 <= n <= |squares|
      invariant count == CountFilled(squares[..n])
      invariant count < |squares|
    {
      assert squares[..n + 1][..n] == squares[..n];
      if squares[n].Filled? {
        count := count + 1;
      }
      if count == |squares| {
        assert squares[..n + 1] == squares;
        CountFilledAll(squares);
        return Tie;
      }
      n := n + 1;
    }
    assert squares[..n] == squares;
    CountFilledAll(squares);
    return InProgress;
  }
}
