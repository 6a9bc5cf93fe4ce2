/** The noughts-and-crosses engine: a 3x3 board of marks, win detection in a fixed
    line order, the position score, and the minimax search with its best-move choice.
    The search works on the board in place and undoes every tentative mark. The
    board is also read as a flat sequence of nine cells, row by row, on which the
    specifying functions are written. */
module TicTacToe {
  import opened Strings

  const Empty: char := ' '

  /** The scores the search handles: Python's -inf and +inf around the integers. */
  datatype Score = NegInfinity | Finite(value: int) | PosInfinity

  predicate AtMost(a: Score, b: Score) {
    a.NegInfinity? || b.PosInfinity? || (a.Finite? && b.Finite? && a.value <= b.value)
  }

  /** Python's `max(a, b)`: `a` unless `b` is larger. */
  function Max(a: Score, b: Score): (r: Score)
    ensures AtMost(a, r) && AtMost(b, r) && (r == a || r == b)
  {
    if AtMost(b, a) then a else b
  }

  /** Python's `min(a, b)`: `a` unless `b` is smaller. */
  function Min(a: Score, b: Score): (r: Score)
    ensures AtMost(r, a) && AtMost(r, b) && (r == a || r == b)
  {
    if AtMost(a, b) then a else b
  }

  // ---------------------------------------------------------------------------
  // The board as nine cells
  // ---------------------------------------------------------------------------

  type Cells = s: seq<char> | |s| == 9 witness [' ', ' ', ' ', ' ', ' ', ' ', ' ', ' ', ' ']

  /** The number of empty cells. */
  function EmptyCount(b: seq<char>): nat {
    multiset(b)[Empty]
  }

  predicate Full(b: Cells) {
    forall k :: 0 <= k < 9 ==> b[k] != Empty
  }

  lemma FullIffNoEmpty(b: Cells)
    ensures Full(b) <==> EmptyCount(b) == 0
  {
    if !Full(b) {
      var k :| 0 <= k < 9 && b[k] == Empty;
      assert b[k] in multiset(b);
    } else {
      assert Empty !in b;
    }
  }

  /** Placing a mark on an empty cell leaves one empty cell fewer. */
  lemma PlaceDecreases(b: Cells, k: nat, mark: char)
    requires k < 9 && b[k] == Empty && mark != Empty
    ensures EmptyCount(b[k := mark]) == EmptyCount(b) - 1
  {
    assert multiset(b[k := mark]) == multiset(b) - multiset{Empty} + multiset{mark};
  }

  /** The eight lines, in the order `check_win` tries them: row i then column i for
      i = 0, 1, 2, then the main and the other diagonal. */
  const Lines: seq<(nat, nat, nat)> := [
    (0, 1, 2), (0, 3, 6),
    (3, 4, 5), (1, 4, 7),
    (6, 7, 8), (2, 5, 8),
    (0, 4, 8), (2, 4, 6)]

  /** Every cell of the line holds the same mark, and it is not the empty one. */
  predicate Complete(b: Cells, line: (nat, nat, nat))
    requires line.0 < 9 && line.1 < 9 && line.2 < 9
  {
    b[line.0] == b[line.1] == b[line.2] != Empty
  }

  /** The index, in `Lines`, of the first complete line from `from` on. */
  function FirstComplete(b: Cells, from: nat): (r: Option<nat>)
    requires from <= 8
    ensures r.Some? ==> from <= r.value < 8 && Complete(b, Lines[r.value])
                        && forall j :: from <= j < r.value ==> !Complete(b, Lines[j])
    ensures r.None? ==> forall j :: from <= j < 8 ==> !Complete(b, Lines[j])
    decreases 8 - from
  {
    if from == 8 then None
    else if Complete(b, Lines[from]) then Some(from)
    else FirstComplete(b, from + 1)
  }

  /** The winner: the mark of the first complete line, if any. */
  function Winner(b: Cells): (r: Option<char>)
    ensures r.None? <==> forall j :: 0 <= j < 8 ==> !Complete(b, Lines[j])
    ensures r.Some? ==> r.value != Empty
                        && exists j :: 0 <= j < 8 && Complete(b, Lines[j]) && b[Lines[j].0] == r.value
  {
    var i := FirstComplete(b, 0);
    if i.Some? then Some(b[Lines[i.value].0]) else None
  }

  /** `evaluate`: 10 when the AI's mark wins, -10 when the human's does, else 0. */
  function Evaluate(b: Cells, ai: char, human: char): (score: int)
    ensures score == 10 <==> Winner(b) == Some(ai)
    ensures score == -10 <==> Winner(b) == Some(human) && ai != human
    ensures score == 0 <==> Winner(b).None? || (Winner(b) != Some(ai) && Winner(b) != Some(human))
  {
    var w := Winner(b);
    if w == Some(ai) then 10
    else if w == Some(human) then -10
    else 0
  }

  // ---------------------------------------------------------------------------
  // Minimax, as functions
  // ---------------------------------------------------------------------------

  /** The score of a position with `isMax` saying whose turn it is: the static score
      when someone has won or the board is full, else the best child score for the
      player to move. */
  function MinimaxScore(b: Cells, isMax: bool, ai: char, human: char): Score
    requires ai != Empty && human != Empty
    decreases EmptyCount(b), 10
  {
    var score := Evaluate(b, ai, human);
    if score != 0 || Full(b) then Finite(score)
    else BestOver(b, isMax, ai, human, 9)
  }

  /** The running best of the search loop after the first `n` cells. */
  function BestOver(b: Cells, isMax: bool, ai: char, human: char, n: nat): Score
    requires ai != Empty && human != Empty && n <= 9
    decreases EmptyCount(b), n
  {
    if n == 0 then (if isMax then NegInfinity else PosInfinity)
    else
      var acc := BestOver(b, isMax, ai, human, n - 1);
      if b[n - 1] != Empty then acc
      else
        var mark := if isMax then ai else human;
        PlaceDecreases(b, n - 1, mark);
        var child := MinimaxScore(b[n - 1 := mark], !isMax, ai, human);
        if isMax then Max(acc, child) else Min(acc, child)
  }

  predicate IsStatic(s: Score) {
    s.Finite? && s.value in {-10, 0, 10}
  }

  /** The search always ends in one of the three static scores. */
  lemma {:induction false} MinimaxIsStaticScore(b: Cells, isMax: bool, ai: char, human: char)
    requires ai != Empty && human != Empty
    ensures IsStatic(MinimaxScore(b, isMax, ai, human))
    decreases EmptyCount(b), 10
  {
    var score := Evaluate(b, ai, human);
    if score == 0 && !Full(b) {
      BestOverIsStaticScore(b, isMax, ai, human, 9);
    }
  }

  /** The running best of the search loop is still the starting infinity until an
      empty cell has been tried, and a static score from then on. */
  lemma {:induction false} BestOverIsStaticScore(b: Cells, isMax: bool, ai: char, human: char, n: nat)
    requires ai != Empty && human != Empty && n <= 9
    ensures (forall k :: 0 <= k < n ==> b[k] != Empty) ==>
            BestOver(b, isMax, ai, human, n) == if isMax then NegInfinity else PosInfinity
    ensures (exists k :: 0 <= k < n && b[k] == Empty) ==> IsStatic(BestOver(b, isMax, ai, human, n))
    decreases EmptyCount(b), n
  {
    if n > 0 {
      BestOverIsStaticScore(b, isMax, ai, human, n - 1);
      if b[n - 1] == Empty {
        var mark := if isMax then ai else human;
        PlaceDecreases(b, n - 1, mark);
        MinimaxIsStaticScore(b[n - 1 := mark], !isMax, ai, human);
      }
    }
  }

  /** The score the search gives to marking empty cell `k` for the player to move. */
  function ChildScore(b: Cells, isMax: bool, ai: char, human: char, k: nat): Score
    requires ai != Empty && human != Empty && k < 9 && b[k] == Empty
  {
    MinimaxScore(b[k := if isMax then ai else human], !isMax, ai, human)
  }

  /** `best` is at least as good as `s` for the player to move: no smaller for the
      maximiser, no larger for the minimiser. */
  predicate NoWorse(isMax: bool, best: Score, s: Score) {
    if isMax then AtMost(s, best) else AtMost(best, s)
  }

  /** After the first `n` cells the running best is no worse than any empty cell's
      child score among them. */
  lemma {:induction false} BestOverBounds(b: Cells, isMax: bool, ai: char, human: char, n: nat)
    requires ai != Empty && human != Empty && n <= 9
    ensures forall k :: 0 <= k < n && b[k] == Empty ==>
              NoWorse(isMax, BestOver(b, isMax, ai, human, n), ChildScore(b, isMax, ai, human, k))
  {
    if n > 0 {
      BestOverBounds(b, isMax, ai, human, n - 1);
      var acc := BestOver(b, isMax, ai, human, n - 1);
      var best := BestOver(b, isMax, ai, human, n);
      if b[n - 1] == Empty {
        var child := ChildScore(b, isMax, ai, human, n - 1);
        assert best == if isMax then Max(acc, child) else Min(acc, child);
        forall k | 0 <= k < n - 1 && b[k] == Empty
          ensures NoWorse(isMax, best, ChildScore(b, isMax, ai, human, k))
        {
          if isMax {
            AtMostTransitive(ChildScore(b, isMax, ai, human, k), acc, best);
          } else {
            AtMostTransitive(best, acc, ChildScore(b, isMax, ai, human, k));
          }
        }
      }
    }
  }

  /** Once an empty cell among the first `n` has been tried, the running best is the
      child score of one of them. */
  lemma {:induction false} BestOverReached(b: Cells, isMax: bool, ai: char, human: char, n: nat)
    requires ai != Empty && human != Empty && n <= 9
    requires exists k :: 0 <= k < n && b[k] == Empty
    ensures exists k :: 0 <= k < n && b[k] == Empty && BestOver(b, isMax, ai, human, n) == ChildScore(b, isMax, ai, human, k)
  {
    var acc := BestOver(b, isMax, ai, human, n - 1);
    var best := BestOver(b, isMax, ai, human, n);
    if b[n - 1] != Empty {
      BestOverReached(b, isMax, ai, human, n - 1);
    } else {
      var mark := if isMax then ai else human;
      PlaceDecreases(b, n - 1, mark);
      MinimaxIsStaticScore(b[n - 1 := mark], !isMax, ai, human);
      var child := ChildScore(b, isMax, ai, human, n - 1);
      assert best == if isMax then Max(acc, child) else Min(acc, child);
      if best != child {
        BestOverIsStaticScore(b, isMax, ai, human, n - 1);
        BestOverReached(b, isMax, ai, human, n - 1);
      }
    }
  }

  /** `minimax` on a board where nobody has won and a cell is free: the player to
      move gets the best of the child scores, an upper bound for the maximiser and a
      lower bound for the minimiser of every empty cell's score, reached by one. */
  lemma MinimaxIsBestChild(b: Cells, isMax: bool, ai: char, human: char)
    requires ai != Empty && human != Empty
    requires Evaluate(b, ai, human) == 0 && !Full(b)
    ensures forall k :: 0 <= k < 9 && b[k] == Empty ==>
              NoWorse(isMax, MinimaxScore(b, isMax, ai, human), ChildScore(b, isMax, ai, human, k))
    ensures exists k :: 0 <= k < 9 && b[k] == Empty && MinimaxScore(b, isMax, ai, human) == ChildScore(b, isMax, ai, human, k)
  {
    BestOverBounds(b, isMax, ai, human, 9);
    var k :| 0 <= k < 9 && b[k] == Empty;
    BestOverReached(b, isMax, ai, human, 9);
  }

  /** The running best of `best_move` after the first `n` cells: the best value so
      far and the move, (-1, -1) until an empty cell is tried. */
  function MoveOver(b: Cells, ai: char, human: char, n: nat): (Score, int, int)
    requires ai != Empty && human != Empty && n <= 9
  {
    if n == 0 then (NegInfinity, -1, -1)
    else
      var (bestVal, row, col) := MoveOver(b, ai, human, n - 1);
      if b[n - 1] != Empty then (bestVal, row, col)
      else
        PlaceDecreases(b, n - 1, ai);
        var val := MinimaxScore(b[n - 1 := ai], false, ai, human);
        if AtMost(val, bestVal) then (bestVal, row, col) else (val, (n - 1) / 3, (n - 1) % 3)
  }

  /** Cell `3 * i + j` of the row-by-row view is row `i`, column `j`. */
  lemma RowColumn(i: nat, j: nat)
    requires i < 3 && j < 3
    ensures (3 * i + j) / 3 == i && (3 * i + j) % 3 == j
  {
  }

  /** The value `best_move` sees for placing the AI's mark on empty cell `k`. */
  function MoveValue(b: Cells, ai: char, human: char, k: nat): Score
    requires ai != Empty && human != Empty && k < 9 && b[k] == Empty
  {
    PlaceDecreases(b, k, ai);
    MinimaxScore(b[k := ai], false, ai, human)
  }

  lemma AtMostTotal(a: Score, b: Score)
    ensures AtMost(a, b) || AtMost(b, a)
  {
  }

  lemma AtMostTransitive(a: Score, b: Score, c: Score)
    requires AtMost(a, b) && AtMost(b, c)
    ensures AtMost(a, c)
  {
  }

  /** With no empty cell among the first `n`, `best_move` still holds (-1, -1). */
  lemma {:induction false} MoveOverWithoutEmpty(b: Cells, ai: char, human: char, n: nat)
    requires ai != Empty && human != Empty && n <= 9
    requires forall k :: 0 <= k < n ==> b[k] != Empty
    ensures MoveOver(b, ai, human, n) == (NegInfinity, -1, -1)
  {
    if n > 0 {
      MoveOverWithoutEmpty(b, ai, human, n - 1);
    }
  }

  /** Once an empty cell has been tried, the move is an empty cell already tried, and
      the best value is that cell's value. */
  lemma {:induction false} MoveOverIsTriedCell(b: Cells, ai: char, human: char, n: nat)
    requires ai != Empty && human != Empty && n <= 9
    requires exists k :: 0 <= k < n && b[k] == Empty
    ensures var (bestVal, row, col) := MoveOver(b, ai, human, n);
      && 0 <= row < 3 && 0 <= col < 3 && 3 * row + col < n && b[3 * row + col] == Empty
      && bestVal == MoveValue(b, ai, human, 3 * row + col) && IsStatic(bestVal)
  {
    if exists k :: 0 <= k < n - 1 && b[k] == Empty {
      MoveOverIsTriedCell(b, ai, human, n - 1);
    } else {
      MoveOverWithoutEmpty(b, ai, human, n - 1);
    }
    if b[n - 1] == Empty {
      MinimaxIsStaticScore(b[n - 1 := ai], false, ai, human);
    }
  }

  /** The best value is at least the value of every empty cell tried. */
  lemma {:induction false} MoveOverIsMaximal(b: Cells, ai: char, human: char, n: nat, k: nat)
    requires ai != Empty && human != Empty && k < n <= 9 && b[k] == Empty
    ensures AtMost(MoveValue(b, ai, human, k), MoveOver(b, ai, human, n).0)
  {
    var prev := MoveOver(b, ai, human, n - 1).0;
    if k < n - 1 {
      MoveOverIsMaximal(b, ai, human, n - 1, k);
      if b[n - 1] == Empty {
        var val := MoveValue(b, ai, human, n - 1);
        if !AtMost(val, prev) {
          AtMostTotal(val, prev);
          AtMostTransitive(MoveValue(b, ai, human, k), prev, val);
        }
      }
    } else {
      AtMostTotal(MoveValue(b, ai, human, k), prev);
    }
  }

  /** No empty cell before the chosen one reaches the best value: ties go to the
      first cell in row-major order. */
  lemma {:induction false} MoveOverIsFirstMaximal(b: Cells, ai: char, human: char, n: nat, k: nat)
    requires ai != Empty && human != Empty && n <= 9 && k < 9 && b[k] == Empty
    requires var (_, row, col) := MoveOver(b, ai, human, n); 0 <= row && k < 3 * row + col
    ensures MoveValue(b, ai, human, k) != MoveOver(b, ai, human, n).0
  {
    var (prev, row, col) := MoveOver(b, ai, human, n - 1);
    if n > 0 && b[n - 1] == Empty && !AtMost(MoveValue(b, ai, human, n - 1), prev) {
      if k < n - 1 {
        MoveOverIsMaximal(b, ai, human, n - 1, k);
      }
    } else if n > 0 {
      MoveOverIsFirstMaximal(b, ai, human, n - 1, k);
    }
  }

  // ---------------------------------------------------------------------------
  // The board in place
  // ---------------------------------------------------------------------------

  predicate IsBoard(board: array2<char>) {
    board.Length0 == 3 && board.Length1 == 3
  }

  /** The board's cells, row by row. */
  function CellsOf(board: array2<char>): (b: Cells)
    requires IsBoard(board)
    reads board
    ensures forall i, j :: 0 <= i < 3 && 0 <= j < 3 ==> b[3 * i + j] == board[i, j]
  {
    var b := seq(9, k requires 0 <= k < 9 reads board => board[k / 3, k % 3]);
    forall i, j | 0 <= i < 3 && 0 <= j < 3
      ensures b[3 * i + j] == board[i, j]
    {
      assert (3 * i + j) / 3 == i && (3 * i + j) % 3 == j;
    }
    b
  }

  /** `board[i][j] = mark`: exactly that cell of the row-by-row view changes. */
  method SetCell(board: array2<char>, i: nat, j: nat, mark: char)
    requires IsBoard(board) && i < 3 && j < 3
    modifies board
    ensures CellsOf(board) == old(CellsOf(board))[3 * i + j := mark]
  {
    ghost var before := CellsOf(board);
    board[i, j] := mark;
    var now := CellsOf(board);
    forall k | 0 <= k < 9
      ensures now[k] == before[3 * i + j := mark][k]
    {
      assert k == 3 * (k / 3) + k % 3;
    }
  }

  /** `create_board`: a new 3x3 board of empty cells. */
  method CreateBoard() returns (board: array2<char>)
    ensures fresh(board) && IsBoard(board)
    ensures forall k :: 0 <= k < 9 ==> CellsOf(board)[k] == Empty
  {
    board := new char[3, 3]((i, j) => Empty);
  }

  /** `board_full`: no cell is empty. */
  function BoardFull(board: array2<char>): (full: bool)
    requires IsBoard(board)
    reads board
    ensures full <==> EmptyCount(CellsOf(board)) == 0
  {
    FullIffNoEmpty(CellsOf(board));
    forall i, j | 0 <= i < 3 && 0 <= j < 3 :: board[i, j] != Empty
  }

  /** `valid_move`: inside the board and on an empty cell. */
  function ValidMove(board: array2<char>, r: int, c: int): (ok: bool)
    requires IsBoard(board)
    reads board
    ensures ok <==> 0 <= r < 3 && 0 <= c < 3 && CellsOf(board)[3 * r + c] == Empty
  {
    0 <= r < 3 && 0 <= c < 3 && board[r, c] == Empty
  }

  /** Row `i` of the board is line `2 * i`. */
  lemma RowLine(board: array2<char>, i: nat)
    requires IsBoard(board) && i < 3
    ensures Complete(CellsOf(board), Lines[2 * i]) <==> board[i, 0] == board[i, 1] == board[i, 2] != Empty
    ensures CellsOf(board)[Lines[2 * i].0] == board[i, 0]
  {
    var b := CellsOf(board);
    assert Lines[2 * i] == (3 * i + 0, 3 * i + 1, 3 * i + 2);
    assert b[3 * i + 0] == board[i, 0] && b[3 * i + 1] == board[i, 1] && b[3 * i + 2] == board[i, 2];
  }

  /** Column `i` of the board is line `2 * i + 1`. */
  lemma ColumnLine(board: array2<char>, i: nat)
    requires IsBoard(board) && i < 3
    ensures Complete(CellsOf(board), Lines[2 * i + 1]) <==> board[0, i] == board[1, i] == board[2, i] != Empty
    ensures CellsOf(board)[Lines[2 * i + 1].0] == board[0, i]
  {
    var b := CellsOf(board);
    assert Lines[2 * i + 1] == (3 * 0 + i, 3 * 1 + i, 3 * 2 + i);
    assert b[3 * 0 + i] == board[0, i] && b[3 * 1 + i] == board[1, i] && b[3 * 2 + i] == board[2, i];
  }

  /** The two diagonals of the board are lines 6 and 7. */
  lemma DiagonalLines(board: array2<char>)
    requires IsBoard(board)
    ensures Complete(CellsOf(board), Lines[6]) <==> board[0, 0] == board[1, 1] == board[2, 2] != Empty
    ensures Complete(CellsOf(board), Lines[7]) <==> board[0, 2] == board[1, 1] == board[2, 0] != Empty
    ensures CellsOf(board)[Lines[6].0] == board[0, 0] && CellsOf(board)[Lines[7].0] == board[0, 2]
  {
    var b := CellsOf(board);
    assert b[0] == board[0, 0] && b[4] == board[1, 1] && b[8] == board[2, 2];
    assert b[2] == board[0, 2] && b[6] == board[2, 0];
  }

  /** One step of the search for the first complete line. */
  lemma FirstCompleteStep(b: Cells, from: nat)
    requires from < 8
    ensures FirstComplete(b, from) == if Complete(b, Lines[from]) then Some(from) else FirstComplete(b, from + 1)
  {
  }

  /** When the lines before `k` are all incomplete and line `k` is complete, the
      winner is the mark on line `k`. */
  lemma WinnerAt(b: Cells, k: nat)
    requires k < 8 && FirstComplete(b, 0) == FirstComplete(b, k) && Complete(b, Lines[k])
    ensures Winner(b) == Some(b[Lines[k].0])
  {
  }

  /** When no line is complete there is no winner. */
  lemma NoWinner(b: Cells)
    requires FirstComplete(b, 0) == FirstComplete(b, 8)
    ensures Winner(b) == None
  {
  }

  /** `check_win`: row i then column i for each i, then the two diagonals; the mark
      of the first complete line. */
  method CheckWin(board: array2<char>) returns (winner: Option<char>)
    requires IsBoard(board)
    ensures winner == Winner(CellsOf(board))
  {
    ghost var b := CellsOf(board);
    for i := 0 to 3
      invariant FirstComplete(b, 0) == FirstComplete(b, 2 * i)
    {
      RowLine(board, i);
      ColumnLine(board, i);
      FirstCompleteStep(b, 2 * i);
      if board[i, 0] == board[i, 1] == board[i, 2] != Empty {
        WinnerAt(b, 2 * i);
        return Some(board[i, 0]);
      }
      FirstCompleteStep(b, 2 * i + 1);
      if board[0, i] == board[1, i] == board[2, i] != Empty {
        WinnerAt(b, 2 * i + 1);
        return Some(board[0, i]);
      }
    }
    DiagonalLines(board);
    FirstCompleteStep(b, 6);
    FirstCompleteStep(b, 7);
    if board[0, 0] == board[1, 1] == board[2, 2] != Empty {
      WinnerAt(b, 6);
      return Some(board[0, 0]);
    }
    if board[0, 2] == board[1, 1] == board[2, 0] != Empty {
      WinnerAt(b, 7);
      return Some(board[0, 2]);
    }
    NoWinner(b);
    return None;
  }

  /** `evaluate` on the board: the score of `Evaluate` for its cells. */
  method EvaluateBoard(board: array2<char>, ai: char, human: char) returns (score: int)
    requires IsBoard(board)
    ensures score == Evaluate(CellsOf(board), ai, human)
  {
    var winner := CheckWin(board);
    if winner == Some(ai) {
      return 10;
    }
    if winner == Some(human) {
      return -10;
    }
    return 0;
  }

  /** `minimax`: the score of the position for the player to move, found by trying
      every empty cell in row-major order; the board is left as it was. */
  method Minimax(board: array2<char>, depth: int, isMax: bool, ai: char, human: char) returns (score: Score)
    requires IsBoard(board) && ai != Empty && human != Empty
    modifies board
    ensures CellsOf(board) == old(CellsOf(board))
    ensures score == MinimaxScore(CellsOf(board), isMax, ai, human)
    decreases EmptyCount(CellsOf(board)), 1
  {
    ghost var b := CellsOf(board);
    var value := EvaluateBoard(board, ai, human);
    FullIffNoEmpty(b);
    if value != 0 || BoardFull(board) {
      return Finite(value);
    }
    score := if isMax then NegInfinity else PosInfinity;
    for i := 0 to 3
      invariant CellsOf(board) == b
      invariant score == BestOver(b, isMax, ai, human, 3 * i)
    {
      for j := 0 to 3
        invariant CellsOf(board) == b
        invariant score == BestOver(b, isMax, ai, human, 3 * i + j)
      {
        score := TryCell(board, i, j, depth, isMax, ai, human, score);
      }
    }
  }

  /** One iteration of the search loop: when cell (i, j) is empty, mark it for the
      player to move, score the position for the other player, clear the cell and
      fold the child's score into the running best. */
  method TryCell(board: array2<char>, i: nat, j: nat, depth: int, isMax: bool, ai: char, human: char,
                 score: Score) returns (next: Score)
    requires IsBoard(board) && ai != Empty && human != Empty && i < 3 && j < 3
    requires score == BestOver(CellsOf(board), isMax, ai, human, 3 * i + j)
    modifies board
    ensures CellsOf(board) == old(CellsOf(board))
    ensures next == BestOver(CellsOf(board), isMax, ai, human, 3 * i + j + 1)
    decreases EmptyCount(CellsOf(board)), 0
  {
    ghost var b := CellsOf(board);
    if board[i, j] != Empty {
      return score;
    }
    var mark := if isMax then ai else human;
    PlaceDecreases(b, 3 * i + j, mark);
    SetCell(board, i, j, mark);
    var child := Minimax(board, depth + 1, !isMax, ai, human);
    SetCell(board, i, j, Empty);
    assert b[3 * i + j := mark][3 * i + j := Empty] == b;
    next := if isMax then Max(score, child) else Min(score, child);
  }

  /** The body of `best_move`'s loop for an empty cell: mark it for the AI, score
      the position for the human to move, and clear the cell again. */
  method TryMove(board: array2<char>, i: nat, j: nat, ai: char, human: char) returns (val: Score)
    requires IsBoard(board) && ai != Empty && human != Empty && i < 3 && j < 3
    requires board[i, j] == Empty
    modifies board
    ensures CellsOf(board) == old(CellsOf(board))
    ensures val == MoveValue(CellsOf(board), ai, human, 3 * i + j)
  {
    ghost var b := CellsOf(board);
    PlaceDecreases(b, 3 * i + j, ai);
    SetCell(board, i, j, ai);
    val := Minimax(board, 0, false, ai, human);
    SetCell(board, i, j, Empty);
    assert b[3 * i + j := ai][3 * i + j := Empty] == b;
  }

  /** `best_move`: the first empty cell, in row-major order, of greatest minimax value
      for the AI, or (-1, -1) on a full board; the board is left as it was. */
  method BestMove(board: array2<char>, ai: char, human: char) returns (row: int, col: int)
    requires IsBoard(board) && ai != Empty && human != Empty
    modifies board
    ensures CellsOf(board) == old(CellsOf(board))
    ensures var (_, r, c) := MoveOver(CellsOf(board), ai, human, 9); row == r && col == c
  {
    ghost var b := CellsOf(board);
    var bestVal := NegInfinity;
    row, col := -1, -1;
    for i := 0 to 3
      invariant CellsOf(board) == b
      invariant (bestVal, row, col) == MoveOver(b, ai, human, 3 * i)
    {
      for j := 0 to 3
        invariant CellsOf(board) == b
        invariant (bestVal, row, col) == MoveOver(b, ai, human, 3 * i + j)
      {
        if board[i, j] == Empty {
          var val := TryMove(board, i, j, ai, human);
          RowColumn(i, j);
          if !AtMost(val, bestVal) {
            bestVal := val;
            row, col := i, j;
          }
        }
      }
    }
  }
}
