/**
 * Games played click by click from a new game: a top-row win for X, a game
 * that fills the board with no winning line, and a repeated click that the
 * game ignores. Each game is followed one accepted click at a time, from the
 * empty board to the last board, which is then classified.
 */
module Scenarios {
  import opened Winner
  import opened GameEngine

  /** State s shows board b at step n, with X to move exactly on even steps. */
  predicate At(s: GameState, n: nat, b: Board) {
    s.stepNumber < |s.history| && s.stepNumber == n &&
    CurrentBoard(s) == b && s.xIsNext == (n % 2 == 0)
  }

  /**
   * One accepted click: at step n on an undecided board b whose first clicked
   * square is empty, the click moves to step n + 1 with that square set to
   * the mark of step n's player, and the rest of the series plays on from
   * there.
   */
  lemma PlayStep(s: GameState, n: nat, b: Board, clicks: seq<Index>, b': Board)
    requires At(s, n, b) && clicks != []
    requires Evaluate(b) == InProgress && b[clicks[0]] == Empty
    requires b' == b[clicks[0] := Filled(MarkFor(n % 2 == 0))]
    ensures At(Click(s, clicks[0]), n + 1, b')
    ensures Play(s, clicks) == Play(Click(s, clicks[0]), clicks[1..])
  {
  }

  /** The boards of the game 0, 4, 1, 3, 2, one mark more after each click. */
  const W1: Board := [Filled(X), Empty, Empty, Empty, Empty, Empty, Empty, Empty, Empty]
  const W2: Board := [Filled(X), Empty, Empty, Empty, Filled(O), Empty, Empty, Empty, Empty]
  const W3: Board := [Filled(X), Filled(X), Empty, Empty, Filled(O), Empty, Empty, Empty, Empty]
  const W4: Board := [Filled(X), Filled(X), Empty, Filled(O), Filled(O), Empty, Empty, Empty, Empty]
  const W5: Board := [Filled(X), Filled(X), Filled(X), Filled(O), Filled(O), Empty, Empty, Empty, Empty]

  /** Each board of that game is the one before with the clicked square set to the mover's mark. */
  lemma TopRowUpdates()
    ensures EmptyBoard[0 := Filled(X)] == W1
    ensures W1[4 := Filled(O)] == W2
    ensures W2[1 := Filled(X)] == W3
    ensures W3[3 := Filled(O)] == W4
    ensures W4[2 := Filled(X)] == W5
  {
  }

  /** The boards before the last click are undecided. */
  lemma TopRowOpening()
    ensures Evaluate(EmptyBoard) == InProgress
    ensures Evaluate(W1) == InProgress && Evaluate(W2) == InProgress
    ensures Evaluate(W3) == InProgress && Evaluate(W4) == InProgress
  {
  }

  /** The last board is won by X on the top row. */
  lemma TopRowFinal()
    ensures Evaluate(W5) == Win(X, Line(0, 1, 2))
  {
  }

  /** Step 0 of the game: the remaining clicks lead from EmptyBoard to W5. */
  lemma TopRowStep0(s: GameState, moves: seq<Index>)
    requires At(s, 0, EmptyBoard) && moves == [0, 4, 1, 3, 2]
    ensures At(Play(s, moves), 5, W5)
  {
    TopRowOpening();
    TopRowUpdates();
    PlayStep(s, 0, EmptyBoard, moves, W1);
    TopRowStep1(Click(s, moves[0]), moves[1..]);
  }

  /** Step 1 of the game: the remaining clicks lead from W1 to W5. */
  lemma TopRowStep1(s: GameState, moves: seq<Index>)
    requires At(s, 1, W1) && moves == [4, 1, 3, 2]
    ensures At(Play(s, moves), 5, W5)
  {
    TopRowOpening();
    TopRowUpdates();
    PlayStep(s, 1, W1, moves, W2);
    TopRowStep2(Click(s, moves[0]), moves[1..]);
  }

  /** Step 2 of the game: the remaining clicks lead from W2 to W5. */
  lemma TopRowStep2(s: GameState, moves: seq<Index>)
    requires At(s, 2, W2) && moves == [1, 3, 2]
    ensures At(Play(s, moves), 5, W5)
  {
    TopRowOpening();
    TopRowUpdates();
    PlayStep(s, 2, W2, moves, W3);
    TopRowStep3(Click(s, moves[0]), moves[1..]);
  }

  /** Step 3 of the game: the remaining clicks lead from W3 to W5. */
  lemma TopRowStep3(s: GameState, moves: seq<Index>)
    requires At(s, 3, W3) && moves == [3, 2]
    ensures At(Play(s, moves), 5, W5)
  {
    TopRowOpening();
    TopRowUpdates();
    PlayStep(s, 3, W3, moves, W4);
    TopRowStep4(Click(s, moves[0]), moves[1..]);
  }

  /** Step 4 of the game: the remaining clicks lead from W4 to W5. */
  lemma TopRowStep4(s: GameState, moves: seq<Index>)
    requires At(s, 4, W4) && moves == [2]
    ensures At(Play(s, moves), 5, W5)
  {
    TopRowOpening();
    TopRowUpdates();
    PlayStep(s, 4, W4, moves, W5);
  }

  /**
   * Clicks 0, 4, 1, 3 and 2 from a new game are all accepted: X completes the
   * top row and wins on line 0-1-2, the history holds six boards, and the
   * game shows step 5 with O to move.
   */
  lemma TopRowWin(moves: seq<Index>)
    requires moves == [0, 4, 1, 3, 2]
    ensures At(Play(Init, moves), 5, W5)
    ensures Evaluate(CurrentBoard(Play(Init, moves))) == Win(X, Line(0, 1, 2))
    ensures |Play(Init, moves).history| == 6 && Accepted(Init, moves) == 5
  {
    TopRowFinal();
    TopRowStep0(Init, moves);
    PlayFromStart(moves);
  }

  /** The boards of the game 0, 1, 2, 4, 3, 5, 7, 6, 8, one mark more after each click. */
  const T1: Board := [Filled(X), Empty, Empty, Empty, Empty, Empty, Empty, Empty, Empty]
  const T2: Board := [Filled(X), Filled(O), Empty, Empty, Empty, Empty, Empty, Empty, Empty]
  const T3: Board := [Filled(X), Filled(O), Filled(X), Empty, Empty, Empty, Empty, Empty, Empty]
  const T4: Board := [Filled(X), Filled(O), Filled(X), Empty, Filled(O), Empty, Empty, Empty, Empty]
  const T5: Board := [Filled(X), Filled(O), Filled(X), Filled(X), Filled(O), Empty, Empty, Empty, Empty]
  const T6: Board := [Filled(X), Filled(O), Filled(X), Filled(X), Filled(O), Filled(O), Empty, Empty, Empty]
  const T7: Board := [Filled(X), Filled(O), Filled(X), Filled(X), Filled(O), Filled(O), Empty, Filled(X), Empty]
  const T8: Board := [Filled(X), Filled(O), Filled(X), Filled(X), Filled(O), Filled(O), Filled(O), Filled(X), Empty]
  const T9: Board := [Filled(X), Filled(O), Filled(X), Filled(X), Filled(O), Filled(O), Filled(O), Filled(X), Filled(X)]

  /** Each board of that game is the one before with the clicked square set to the mover's mark. */
  lemma TieUpdates()
    ensures EmptyBoard[0 := Filled(X)] == T1
    ensures T1[1 := Filled(O)] == T2
    ensures T2[2 := Filled(X)] == T3
    ensures T3[4 := Filled(O)] == T4
    ensures T4[3 := Filled(X)] == T5
    ensures T5[5 := Filled(O)] == T6
    ensures T6[7 := Filled(X)] == T7
    ensures T7[6 := Filled(O)] == T8
    ensures T8[8 := Filled(X)] == T9
  {
  }

  /** The empty board and the boards after the first two clicks are undecided. */
  lemma TieOpening()
    ensures Evaluate(EmptyBoard) == InProgress
    ensures Evaluate(T1) == InProgress && Evaluate(T2) == InProgress
  {
  }

  /** The boards after clicks three to five are undecided. */
  lemma TieMiddleGame()
    ensures Evaluate(T3) == InProgress && Evaluate(T4) == InProgress
    ensures Evaluate(T5) == InProgress
  {
  }

  /** The boards after clicks six to eight have no winning line and an empty square. */
  lemma TieEndgame()
    ensures Evaluate(T6) == InProgress && Evaluate(T7) == InProgress
    ensures Evaluate(T8) == InProgress
  {
    assert !T8[8].Filled?;
  }

  /** The full board has no winning line: a tie. */
  lemma TieFinal()
    ensures Evaluate(T9) == Tie
  {
  }

  /** Step 0 of the game: the remaining clicks lead from EmptyBoard to T9. */
  lemma TieStep0(s: GameState, moves: seq<Index>)
    requires At(s, 0, EmptyBoard) && moves == [0, 1, 2, 4, 3, 5, 7, 6, 8]
    ensures At(Play(s, moves), 9, T9)
  {
    TieOpening();
    TieUpdates();
    PlayStep(s, 0, EmptyBoard, moves, T1);
    TieStep1(Click(s, moves[0]), moves[1..]);
  }

  /** Step 1 of the game: the remaining clicks lead from T1 to T9. */
  lemma TieStep1(s: GameState, moves: seq<Index>)
    requires At(s, 1, T1) && moves == [1, 2, 4, 3, 5, 7, 6, 8]
    ensures At(Play(s, moves), 9, T9)
  {
    TieOpening();
    TieUpdates();
    PlayStep(s, 1, T1, moves, T2);
    TieStep2(Click(s, moves[0]), moves[1..]);
  }

  /** Step 2 of the game: the remaining clicks lead from T2 to T9. */
  lemma TieStep2(s: GameState, moves: seq<Index>)
    requires At(s, 2, T2) && moves == [2, 4, 3, 5, 7, 6, 8]
    ensures At(Play(s, moves), 9, T9)
  {
    TieOpening();
    TieUpdates();
    PlayStep(s, 2, T2, moves, T3);
    TieStep3(Click(s, moves[0]), moves[1..]);
  }

  /** Step 3 of the game: the remaining clicks lead from T3 to T9. */
  lemma TieStep3(s: GameState, moves: seq<Index>)
    requires At(s, 3, T3) && moves == [4, 3, 5, 7, 6, 8]
    ensures At(Play(s, moves), 9, T9)
  {
    TieMiddleGame();
    TieUpdates();
    PlayStep(s, 3, T3, moves, T4);
    TieStep4(Click(s, moves[0]), moves[1..]);
  }

  /** Step 4 of the game: the remaining clicks lead from T4 to T9. */
  lemma TieStep4(s: GameState, moves: seq<Index>)
    requires At(s, 4, T4) && moves == [3, 5, 7, 6, 8]
    ensures At(Play(s, moves), 9, T9)
  {
    TieMiddleGame();
    TieUpdates();
    PlayStep(s, 4, T4, moves, T5);
    TieStep5(Click(s, moves[0]), moves[1..]);
  }

  /** Step 5 of the game: the remaining clicks lead from T5 to T9. */
  lemma TieStep5(s: GameState, moves: seq<Index>)
    requires At(s, 5, T5) && moves == [5, 7, 6, 8]
    ensures At(Play(s, moves), 9, T9)
  {
    TieMiddleGame();
    TieUpdates();
    PlayStep(s, 5, T5, moves, T6);
    TieStep6(Click(s, moves[0]), moves[1..]);
  }

  /** Step 6 of the game: the remaining clicks lead from T6 to T9. */
  lemma TieStep6(s: GameState, moves: seq<Index>)
    requires At(s, 6, T6) && moves == [7, 6, 8]
    ensures At(Play(s, moves), 9, T9)
  {
    TieEndgame();
    TieUpdates();
    PlayStep(s, 6, T6, moves, T7);
    TieStep7(Click(s, moves[0]), moves[1..]);
  }

  /** Step 7 of the game: the remaining clicks lead from T7 to T9. */
  lemma TieStep7(s: GameState, moves: seq<Index>)
    requires At(s, 7, T7) && moves == [6, 8]
    ensures At(Play(s, moves), 9, T9)
  {
    TieEndgame();
    TieUpdates();
    PlayStep(s, 7, T7, moves, T8);
    TieStep8(Click(s, moves[0]), moves[1..]);
  }

  /** Step 8 of the game: the remaining clicks lead from T8 to T9. */
  lemma TieStep8(s: GameState, moves: seq<Index>)
    requires At(s, 8, T8) && moves == [8]
    ensures At(Play(s, moves), 9, T9)
  {
    TieEndgame();
    TieUpdates();
    PlayStep(s, 8, T8, moves, T9);
  }

  /**
   * Clicks 0, 1, 2, 4, 3, 5, 7, 6 and 8 from a new game are all accepted and
   * fill the board with no winning line: the game is a tie at step 9, the
   * history holds ten boards, and the game is over, so every further click
   * is ignored.
   */
  lemma FullBoardTie(moves: seq<Index>, i: Index)
    requires moves == [0, 1, 2, 4, 3, 5, 7, 6, 8]
    ensures At(Play(Init, moves), 9, T9)
    ensures Evaluate(CurrentBoard(Play(Init, moves))) == Tie
    ensures |Play(Init, moves).history| == 10 && Accepted(Init, moves) == 9
    ensures Click(Play(Init, moves), i) == Play(Init, moves)
  {
    TieFinal();
    TieStep0(Init, moves);
    PlayFromStart(moves);
  }

  /** A second click on the same square changes nothing: one move, and O to play. */
  lemma RepeatedClick()
    ensures Play(Init, [0, 0]) == Play(Init, [0])
    ensures Play(Init, [0]).stepNumber == 1 && !Play(Init, [0]).xIsNext
  {
  }
}
