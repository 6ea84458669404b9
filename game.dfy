/**
 * The state of a game: the history of board snapshots, the step currently
 * shown and whose turn it is, changed by a click on a square and by a jump
 * to an earlier step (class Game in src/index.js).
 */
module GameEngine {
  import opened Winner

  datatype Option<T> = None | Some(value: T)

  /** The move that produced a snapshot: 1-based row and column, and the mark placed. */
  datatype Move = Move(row: int, col: int, player: Mark)

  /** One history snapshot; the first one of a game has no move. */
  datatype Entry = Entry(squares: Board, move: Option<Move>)

  /** The snapshot a game starts from. */
  const Start: Entry := Entry(EmptyBoard, None)

  /** The mark for the player who moves next. */
  function MarkFor(xIsNext: bool): Mark {
    if xIsNext then X else O
  }

  /** The square index for a 1-based row and column. */
  function CellIndex(row: int, col: int): int {
    (row - 1) * 3 + (col - 1)
  }

  /**
   * Snapshot next is a legal move from snapshot prev, which is the board
   * after `step` moves: prev was still in progress, the recorded square was
   * empty and now holds the mark of the player whose turn it was, and no
   * other square changed.
   */
  ghost predicate Follows(prev: Entry, next: Entry, step: nat) {
    next.move.Some? &&
    var m := next.move.value;
    1 <= m.row <= 3 && 1 <= m.col <= 3 &&
    m.player == MarkFor(step % 2 == 0) &&
    Evaluate(prev.squares) == InProgress &&
    prev.squares[CellIndex(m.row, m.col)] == Empty &&
    next.squares == prev.squares[CellIndex(m.row, m.col) := Filled(m.player)]
  }

  /** A history that a game can build: the empty board, then one legal move per entry. */
  ghost predicate ValidHistory(h: seq<Entry>) {
    |h| >= 1 && h[0] == Start &&
    forall k :: 1 <= k < |h| ==> Follows(h[k - 1], h[k], k - 1)
  }

  /** Cutting a history after any entry leaves a history (branching from the past). */
  lemma HistoryPrefix(h: seq<Entry>, n: nat)
    requires ValidHistory(h) && 1 <= n <= |h|
    ensures ValidHistory(h[..n])
  {
  }

  /** Appending a legal move to a history gives a history. */
  lemma HistoryExtend(h: seq<Entry>, e: Entry)
    requires ValidHistory(h) && Follows(h[|h| - 1], e, |h| - 1)
    ensures ValidHistory(h + [e])
  {
  }

  /** The board at step k of a history holds exactly k marks. */
  lemma {:induction false} FilledCountIsStep(h: seq<Entry>, k: nat)
    requires ValidHistory(h) && k < |h|
    ensures CountFilled(h[k].squares) == k
  {
    if k == 0 {
      EmptyPrefixCount(9);
      assert EmptyBoard[..9] == EmptyBoard;
    } else {
      FilledCountIsStep(h, k - 1);
      assert Follows(h[k - 1], h[k], k - 1);
      var m := h[k].move.value;
      CountFilledPlace(h[k - 1].squares, CellIndex(m.row, m.col), m.player);
    }
  }

  /** No prefix of the empty board holds a mark. */
  lemma {:induction false} EmptyPrefixCount(n: nat)
    requires n <= 9
    ensures CountFilled(EmptyBoard[..n]) == 0
    ensures CountMark(EmptyBoard[..n], X) == 0 && CountMark(EmptyBoard[..n], O) == 0
  {
    if n > 0 {
      assert EmptyBoard[..n][..n - 1] == EmptyBoard[..n - 1];
      EmptyPrefixCount(n - 1);
    }
  }

  /** X moves first and the players alternate: after k moves X has (k + 1) / 2 marks and O has k / 2. */
  lemma {:induction false} MarksAlternate(h: seq<Entry>, k: nat)
    requires ValidHistory(h) && k < |h|
    ensures CountMark(h[k].squares, X) == (k + 1) / 2
    ensures CountMark(h[k].squares, O) == k / 2
  {
    if k == 0 {
      EmptyPrefixCount(9);
      assert EmptyBoard[..9] == EmptyBoard;
    } else {
      MarksAlternate(h, k - 1);
      assert Follows(h[k - 1], h[k], k - 1);
      var m := h[k].move.value;
      CountMarkPlace(h[k - 1].squares, CellIndex(m.row, m.col), m.player, X);
      CountMarkPlace(h[k - 1].squares, CellIndex(m.row, m.col), m.player, O);
    }
  }

  /** A game has at most nine moves, so a history never exceeds ten entries. */
  lemma HistoryBounded(h: seq<Entry>)
    requires ValidHistory(h)
    ensures |h| <= 10
  {
    FilledCountIsStep(h, |h| - 1);
  }

  /** A filled square keeps its mark in every later snapshot. */
  lemma {:induction false} FilledCellsPersist(h: seq<Entry>, j: nat, k: nat, c: Index)
    requires ValidHistory(h) && j <= k < |h|
    requires h[j].squares[c].Filled?
    ensures h[k].squares[c] == h[j].squares[c]
  {
    if j < k {
      FilledCellsPersist(h, j, k - 1, c);
      assert Follows(h[k - 1], h[k], k - 1);
    }
  }

  /** Consecutive snapshots differ in exactly one square. */
  lemma OneCellChanged(h: seq<Entry>, k: nat)
    requires ValidHistory(h) && 1 <= k < |h|
    ensures |set c | 0 <= c < 9 && h[k - 1].squares[c] != h[k].squares[c]| == 1
  {
    assert Follows(h[k - 1], h[k], k - 1);
    var m := h[k].move.value;
    var i := CellIndex(m.row, m.col);
    assert (set c | 0 <= c < 9 && h[k - 1].squares[c] != h[k].squares[c]) == {i};
  }

  /** The three fields of the game's state, as one value. */
  datatype GameState = GameState(history: seq<Entry>, stepNumber: nat, xIsNext: bool)

  /** The state of a new game: the empty board only, at step 0, X to move. */
  const Init: GameState := GameState([Start], 0, true)

  /** The step is an index of the history, and X moves on even steps. */
  ghost predicate ValidState(s: GameState) {
    ValidHistory(s.history) &&
    s.stepNumber < |s.history| &&
    s.xIsNext == (s.stepNumber % 2 == 0)
  }

  /** The board shown at the current step. */
  function CurrentBoard(s: GameState): Board
    requires s.stepNumber < |s.history|
  {
    s.history[s.stepNumber].squares
  }

  /** A click on square i is accepted: the board is undecided and the square empty. */
  predicate Playable(s: GameState, i: Index)
    requires s.stepNumber < |s.history|
  {
    Evaluate(CurrentBoard(s)) == InProgress && CurrentBoard(s)[i] == Empty
  }

  /** A recorded move names square i, in rows and columns 1 to 3, with mark m. */
  predicate Records(move: Option<Move>, i: Index, m: Mark) {
    move.Some? &&
    1 <= move.value.row <= 3 && 1 <= move.value.col <= 3 &&
    CellIndex(move.value.row, move.value.col) == i &&
    move.value.player == m
  }

  /**
   * The state after a click on square i. Ignored unless Playable; otherwise
   * the entries after the current step are dropped, and a snapshot with the
   * square set to the mover's mark and the move recorded is appended and
   * becomes current, with the other player to move.
   */
  function Click(s: GameState, i: Index): (r: GameState)
    requires s.stepNumber < |s.history|
    ensures r.stepNumber < |r.history|
    ensures !Playable(s, i) ==> r == s
    ensures Playable(s, i) ==>
      && |r.history| == s.stepNumber + 2
      && r.history[..s.stepNumber + 1] == s.history[..s.stepNumber + 1]
      && r.stepNumber == s.stepNumber + 1
      && r.xIsNext == !s.xIsNext
      && CurrentBoard(r) == CurrentBoard(s)[i := Filled(MarkFor(s.xIsNext))]
      && Records(r.history[r.stepNumber].move, i, MarkFor(s.xIsNext))
  {
    var past := s.history[..s.stepNumber + 1];
    var squares := past[|past| - 1].squares;
    if Evaluate(squares) != InProgress || squares[i].Filled? then s
    else
      var mark := MarkFor(s.xIsNext);
      var next := Entry(squares[i := Filled(mark)], Some(Move(i / 3 + 1, i % 3 + 1, mark)));
      GameState(past + [next], |past|, !s.xIsNext)
  }

  /**
   * The state after a jump to step `step`: the history is kept, the step
   * moves, and the player to move follows the step's parity; a jump to the
   * current step changes nothing.
   */
  function Jump(s: GameState, step: nat): (r: GameState)
    requires step < |s.history|
    ensures r.history == s.history && r.stepNumber == step
    ensures ValidState(s) ==> ValidState(r) && r.xIsNext == (step % 2 == 0)
    ensures step == s.stepNumber ==> r == s
  {
    if step == s.stepNumber then s
    else GameState(s.history, step, step % 2 == 0)
  }

  /** A click keeps the state valid. */
  lemma ClickValid(s: GameState, i: Index)
    requires ValidState(s)
    ensures ValidState(Click(s, i))
  {
  }

  /** The state after a series of clicks with no jumps in between. */
  function Play(s: GameState, clicks: seq<Index>): (r: GameState)
    requires s.stepNumber < |s.history|
    ensures r.stepNumber < |r.history|
    decreases |clicks|
  {
    if clicks == [] then s else Play(Click(s, clicks[0]), clicks[1..])
  }

  /** Playing two series of clicks one after the other is playing their concatenation. */
  lemma {:induction false} PlayAppend(s: GameState, a: seq<Index>, b: seq<Index>)
    requires s.stepNumber < |s.history|
    ensures Play(s, a + b) == Play(Play(s, a), b)
    decreases |a|
  {
    if a == [] {
      assert a + b == b;
    } else {
      assert (a + b)[1..] == a[1..] + b;
      PlayAppend(Click(s, a[0]), a[1..], b);
    }
  }

  /** The number of clicks in a series that the game accepts (the others are ignored). */
  function Accepted(s: GameState, clicks: seq<Index>): (n: nat)
    requires s.stepNumber < |s.history|
    ensures n <= |clicks|
    decreases |clicks|
  {
    if clicks == [] then 0
    else (if Playable(s, clicks[0]) then 1 else 0) + Accepted(Click(s, clicks[0]), clicks[1..])
  }

  /**
   * Playing forward from the latest step only appends: the earlier history
   * is kept, one entry is added per accepted click, the step stays on the
   * last entry, and the state stays valid.
   */
  lemma {:induction false} PlayForward(s: GameState, clicks: seq<Index>)
    requires ValidState(s) && s.stepNumber == |s.history| - 1
    ensures ValidState(Play(s, clicks))
    ensures |Play(s, clicks).history| == |s.history| + Accepted(s, clicks)
    ensures Play(s, clicks).stepNumber == s.stepNumber + Accepted(s, clicks)
    ensures s.history <= Play(s, clicks).history
    decreases |clicks|
  {
    if clicks != [] {
      var s' := Click(s, clicks[0]);
      ClickValid(s, clicks[0]);
      assert s.history[..s.stepNumber + 1] == s.history;
      PlayForward(s', clicks[1..]);
    }
  }

  /**
   * From a new game, any series of clicks leaves one entry per accepted
   * click after the empty board, shows the last of them, and accepts at
   * most nine clicks.
   */
  lemma PlayFromStart(clicks: seq<Index>)
    ensures ValidState(Play(Init, clicks))
    ensures |Play(Init, clicks).history| == Accepted(Init, clicks) + 1
    ensures Play(Init, clicks).stepNumber == Accepted(Init, clicks)
    ensures Play(Init, clicks).history[0] == Start
    ensures Accepted(Init, clicks) <= 9
  {
    PlayForward(Init, clicks);
    HistoryBounded(Play(Init, clicks).history);
  }

  /** A jump back to step k followed by an accepted click keeps exactly entries 0..k. */
  lemma BranchFromPast(s: GameState, k: nat, i: Index)
    requires ValidState(s) && k < |s.history|
    requires Playable(Jump(s, k), i)
    ensures |Click(Jump(s, k), i).history| == k + 2
    ensures Click(Jump(s, k), i).history[..k + 1] == s.history[..k + 1]
    ensures Click(Jump(s, k), i).xIsNext == (k % 2 == 1)
  {
  }

  class Game {
    var history: seq<Entry>
    var stepNumber: nat
    var xIsNext: bool

    /** The fields as one value. */
    ghost function State(): GameState
      reads this
    {
      GameState(history, stepNumber, xIsNext)
    }

    ghost predicate Valid()
      reads this
    {
      ValidState(State())
    }

    /** A new game: the empty board only, at step 0, X to move. */
    constructor ()
      ensures Valid() && State() == Init
    {
      history := [Start];
      stepNumber := 0;
      xIsNext := true;
    }

    /**
     * A click on square i (handleClick): the current board is copied, the
     * click is ignored when that board is won or tied or the square taken,
     * and otherwise the new snapshot and its move are appended.
     */
    method HandleClick(i: Index)
      requires Valid()
      modifies this
      ensures Valid() && State() == Click(old(State()), i)
    {
      var past := history[..stepNumber + 1];
      var current := past[|past| - 1];
      var squares := new Cell[9](k requires 0 <= k < 9 => current.squares[k]);
      assert squares[..] == current.squares;

      var winner := CalculateWinner(squares[..]);
      if winner != InProgress || squares[i].Filled? {
        return;
      }
      squares[i] := Filled(if xIsNext then X else O);

      var row := i / 3 + 1;
      var col := i % 3 + 1;
      var player := squares[i].mark;
      var next := Entry(squares[..], Some(Move(row, col, player)));
      assert next.squares == current.squares[i := Filled(player)];

      ClickValid(State(), i);
      history, stepNumber, xIsNext := past + [next], |past|, !xIsNext;
    }

    /**
     * Time travel (jumpTo): show step `step`, with the player to move given
     * by its parity; nothing happens when it is already the current step.
     */
    method JumpTo(step: nat)
      requires Valid()
      requires step < |history|
      modifies this
      ensures Valid() && State() == Jump(old(State()), step)
    {
      if step == stepNumber {
        return;
      }
      stepNumber, xIsNext := step, step % 2 == 0;
    }
  }
}
