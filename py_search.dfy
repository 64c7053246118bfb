/**
 * Point evaluation and the two-player fixed-depth search (maxi for white,
 * mini for black) of the Python engine (ChessEngine.py).
 */
module PySearch {
  import opened DataStructs
  import opened PyPieces
  import opened PyRules
  import opened PyMoves

  // ---------------------------------------------------------------------------
  // positionEvaluation

  function CellPoints(x: Cell): int { if x.None? then 0 else Points(x.value) }

  /** The points of a row, left to right. */
  function RowPoints(row: seq<Cell>): int
    decreases |row|
  {
    if row == [] then 0 else CellPoints(row[0]) + RowPoints(row[1..])
  }

  /** The points of the whole board: the sum over every piece on it. */
  function Evaluation(g: Rows): int
    decreases |g|
  {
    if g == [] then 0 else RowPoints(g[0]) + Evaluation(g[1..])
  }

  /** A search result: the score, and the best moves as `(row, col, nextRow, nextCol, points)`. */
  type Entry = (int, int, int, int, int)

  method PositionEvaluation(board: Grid) returns (points: int, bestMoves: seq<Entry>)
    ensures points == Evaluation(board.cells) && bestMoves == []
  {
    var g := board.cells;
    points := 0;
    for row := 0 to |g|
      invariant points + Evaluation(g[row..]) == Evaluation(g)
    {
      assert g[row..][1..] == g[row + 1..];
      ghost var rowStart := points;
      for col := 0 to |g[row]|
        invariant points + RowPoints(g[row][col..]) == rowStart + RowPoints(g[row])
      {
        assert g[row][col..][1..] == g[row][col + 1..];
        if g[row][col] != None {
          points := points + Points(g[row][col].value);
        }
      }
    }
    bestMoves := [];
  }

  lemma {:induction false} RowBound(row: seq<Cell>)
    ensures -900 * |row| <= RowPoints(row) <= 900 * |row|
    decreases |row|
  {
    if row != [] {
      RowBound(row[1..]);
    }
  }

  lemma {:induction false} BoardBound(g: Rows)
    requires forall i :: 0 <= i < |g| ==> |g[i]| == 8
    ensures -7200 * |g| <= Evaluation(g) <= 7200 * |g|
    decreases |g|
  {
    if g != [] {
      RowBound(g[0]);
      BoardBound(g[1..]);
    }
  }

  /** No 8x8 board is worth more than 64 kings to either side. */
  lemma EvaluationBound(g: Rows)
    requires Square8(g)
    ensures -57600 <= Evaluation(g) <= 57600
  {
    BoardBound(g);
  }

  lemma {:induction false} RowPut(row: seq<Cell>, c: int, x: Cell)
    requires 0 <= c < |row|
    ensures RowPoints(row[c := x]) == RowPoints(row) - CellPoints(row[c]) + CellPoints(x)
    decreases |row|
  {
    if c > 0 {
      assert row[c := x][1..] == row[1..][c - 1 := x];
      RowPut(row[1..], c - 1, x);
    } else {
      assert row[c := x][1..] == row[1..];
    }
  }

  lemma {:induction false} BoardPut(g: Rows, r: int, row: seq<Cell>)
    requires 0 <= r < |g|
    ensures Evaluation(g[r := row]) == Evaluation(g) - RowPoints(g[r]) + RowPoints(row)
    decreases |g|
  {
    if r > 0 {
      assert g[r := row][1..] == g[1..][r - 1 := row];
      BoardPut(g[1..], r - 1, row);
    } else {
      assert g[r := row][1..] == g[1..];
    }
  }

  /** Writing a square changes the evaluation by exactly the points it gains and loses. */
  lemma EvaluationPut(g: Rows, r: int, c: int, x: Cell)
    requires Square8(g) && InBoard(r, c)
    ensures Evaluation(Put(g, r, c, x)) == Evaluation(g) - CellPoints(g[r][c]) + CellPoints(x)
  {
    RowPut(g[r], c, x);
    BoardPut(g, r, g[r][c := x]);
  }

  /** A move changes the evaluation only by the piece it captures. */
  lemma EvaluationAfterMove(g: Rows, r: int, c: int, nr: int, nc: int)
    requires Square8(g) && InBoard(r, c) && InBoard(nr, nc) && (r != nr || c != nc)
    ensures Evaluation(Moved(g, r, c, nr, nc)) == Evaluation(g) - CellPoints(g[nr][nc])
  {
    EvaluationPut(g, nr, nc, g[r][c]);
    EvaluationPut(Put(g, nr, nc, g[r][c]), r, c, None);
  }

  function OtherColour(c: Colour): Colour { if c == White then Black else White }

  function SwapCell(x: Cell): Cell { if x.None? then None else Some(x.value.(colour := OtherColour(x.value.colour))) }

  function SwapRow(row: seq<Cell>): (s: seq<Cell>)
    ensures |s| == |row| && forall j :: 0 <= j < |row| ==> s[j] == SwapCell(row[j])
    decreases |row|
  {
    if row == [] then [] else [SwapCell(row[0])] + SwapRow(row[1..])
  }

  /** The board with every piece handed to the other side. */
  function SwapColours(g: Rows): (h: Rows)
    ensures |h| == |g| && forall i :: 0 <= i < |g| ==> h[i] == SwapRow(g[i])
    decreases |g|
  {
    if g == [] then [] else [SwapRow(g[0])] + SwapColours(g[1..])
  }

  lemma {:induction false} SwapRowPoints(row: seq<Cell>)
    ensures RowPoints(SwapRow(row)) == -RowPoints(row)
    decreases |row|
  {
    if row != [] {
      SwapRowPoints(row[1..]);
      assert SwapRow(row)[1..] == SwapRow(row[1..]);
    }
  }

  /** The evaluation is antisymmetric: swapping every piece's colour negates it. */
  lemma {:induction false} EvaluationSwap(g: Rows)
    ensures Evaluation(SwapColours(g)) == -Evaluation(g)
    decreases |g|
  {
    if g != [] {
      SwapRowPoints(g[0]);
      EvaluationSwap(g[1..]);
      assert SwapColours(g)[1..] == SwapColours(g[1..]);
    }
  }

  /**
   * specialRules changes the evaluation by a promotion (the pawn's points give
   * way to the new piece's) and by castling only if the square the rook lands
   * on was occupied, which the king's path test rules out for a castling move.
   */
  lemma SpecialRulesEvaluation(g: Rows, row: int, col: int, promotion: Kind)
    requires Square8(g) && InBoard(row, col) && PromotionChoice(promotion)
    ensures var x := g[row][col];
      Evaluation(AfterSpecialRules(g, row, col, promotion)) ==
        if UnmovedKing(x) && (col == 2 || col == 6) then Evaluation(g) - CellPoints(g[row][if col == 2 then 3 else 5])
        else if x.Some? && x.value.kind == Pawn && (row == 0 || row == 7)
        then Evaluation(g) - Points(x.value) + Points(NewPiece(promotion, x.value.colour))
        else Evaluation(g)
  {
    var x := g[row][col];
    var placed :=
      if UnmovedKing(x) && col == 2 then Put(Put(g, row, 3, g[row][0]), row, 0, None)
      else if UnmovedKing(x) && col == 6 then Put(Put(g, row, 5, g[row][7]), row, 7, None)
      else if x.Some? && x.value.kind == Pawn && (row == 0 || row == 7) then Put(g, row, col, Some(NewPiece(promotion, x.value.colour)))
      else g;
    MarkKeepsEvaluation(placed, row, col);
    if UnmovedKing(x) && col == 2 {
      RookCrossingEvaluation(g, row, 0, 3);
    } else if UnmovedKing(x) && col == 6 {
      RookCrossingEvaluation(g, row, 7, 5);
    } else if x.Some? && x.value.kind == Pawn && (row == 0 || row == 7) {
      EvaluationPut(g, row, col, Some(NewPiece(promotion, x.value.colour)));
    }
  }

  /** Marking a piece as moved leaves the evaluation as it is. */
  lemma MarkKeepsEvaluation(h: Rows, row: int, col: int)
    requires Square8(h) && InBoard(row, col)
    ensures var y := h[row][col];
      Evaluation(if TracksMoves(y) then Put(h, row, col, Some(y.value.(hasMoved := true))) else h) == Evaluation(h)
  {
    var y := h[row][col];
    if TracksMoves(y) {
      EvaluationPut(h, row, col, Some(y.value.(hasMoved := true)));
    }
  }

  /** The castling rook's crossing loses only what stood on its landing square. */
  lemma RookCrossingEvaluation(g: Rows, row: int, corner: int, beside: int)
    requires Square8(g) && InBoard(row, corner) && InBoard(row, beside) && corner != beside
    ensures Evaluation(Put(Put(g, row, beside, g[row][corner]), row, corner, None)) == Evaluation(g) - CellPoints(g[row][beside])
  {
    var g1 := Put(g, row, beside, g[row][corner]);
    EvaluationPut(g, row, beside, g[row][corner]);
    EvaluationPut(g1, row, corner, None);
  }

  // ---------------------------------------------------------------------------
  // maxi / mini

  /** The score a side starts from: maxi's alpha for white, mini's beta for black. */
  function Worst(side: Colour): int { if side == White then -100000 else 100000 }

  /** `a` is strictly better than `b` for `side`. */
  predicate Beats(side: Colour, a: int, b: int) { if side == White then a > b else a < b }

  function After(g: Rows, m: MoveTuple): (h: Rows)
    requires Square8(g) && MoveInBoard(m)
    ensures Square8(h)
  {
    Moved(g, m.0, m.1, m.2, m.3)
  }

  function MoveOf(e: Entry): MoveTuple { (e.0, e.1, e.2, e.3) }

  /**
   * maxi (`side == White`) and mini (`side == Black`): at depth 0 the
   * evaluation with no moves; otherwise the loop over the side's generated
   * moves. `None` is an exception raised on the way.
   */
  function Search(g: Rows, side: Colour, depth: nat): Option<(int, seq<Entry>)>
    requires Square8(g)
    decreases depth, 2
  {
    if depth == 0 then Some((Evaluation(g), []))
    else
      match GeneratedMoves(g, side)
      case None => None
      case Some(ms) => Pick(side, ms, Replies(g, side, depth), Worst(side), [])
  }

  /** The other side's score after each move of `side`, as the loop of maxi/mini consults it. */
  function Replies(g: Rows, side: Colour, depth: nat): MoveTuple -> Option<int>
    requires Square8(g) && depth >= 1
    decreases depth, 1
  {
    (m: MoveTuple) => ReplyScore(g, side, depth, m)
  }

  /** The other side's score after move `m` of `side`, searched one ply shallower. */
  function ReplyScore(g: Rows, side: Colour, depth: nat, m: MoveTuple): Option<int>
    requires Square8(g) && depth >= 1
    decreases depth, 0
  {
    if !MoveInBoard(m) then None
    else
      match Search(After(g, m), OtherColour(side), depth - 1)
      case None => None
      case Some(reply) => Some(reply.0)
  }

  /**
   * The move loop of maxi/mini from the running best score `bound` and moves
   * `best`, given the reply scores: a reply beyond the opposite limit returns
   * that limit at once, a better one starts a new list, an equal one joins it.
   */
  function Pick(side: Colour, ms: seq<MoveTuple>, replies: MoveTuple -> Option<int>, bound: int, best: seq<Entry>): Option<(int, seq<Entry>)>
    decreases |ms|
  {
    if ms == [] then Some((bound, best))
    else
      var m := ms[0];
      match replies(m)
      case None => None
      case Some(points) =>
        if Beats(side, points, -Worst(side)) then Some((-Worst(side), []))
        else if Beats(side, points, bound) then Pick(side, ms[1..], replies, points, [(m.0, m.1, m.2, m.3, points)])
        else if points == bound then Pick(side, ms[1..], replies, bound, best + [(m.0, m.1, m.2, m.3, points)])
        else Pick(side, ms[1..], replies, bound, best)
  }

  method Maxi(board: Grid, alpha: int, beta: int, depth: nat) returns (result: Option<(int, seq<Entry>)>)
    requires Square8(board.cells)
    modifies board
    ensures result == Search(old(board.cells), White, depth)
    ensures result.Some? ==> board.cells == old(board.cells)
    decreases depth, 2
  {
    if depth == 0 {
      var points, none := PositionEvaluation(board);
      return Some((points, none));
    }
    var possibleMoves := GenerateMoves(board, White);
    if possibleMoves.None? {
      return None;
    }
    GeneratedInBoard(board.cells, White);
    result := MaxiMoves(board, depth, possibleMoves.value);
  }

  /** The move loop of maxi; `alpha` is the running best score, `beta` the cutoff limit. */
  method MaxiMoves(board: Grid, depth: nat, possibleMoves: seq<MoveTuple>) returns (result: Option<(int, seq<Entry>)>)
    requires Square8(board.cells) && depth >= 1 && forall m :: m in possibleMoves ==> MoveInBoard(m)
    modifies board
    ensures result == Pick(White, possibleMoves, Replies(old(board.cells), White, depth), -100000, [])
    ensures result.Some? ==> board.cells == old(board.cells)
    decreases depth, 1
  {
    hide ReplyScore, Search;
    ghost var g := board.cells;
    ghost var replies := Replies(g, White, depth);
    var bestMoves := [];
    var alpha, beta := -100000, 100000;
    for i := 0 to |possibleMoves|
      invariant board.cells == g
      invariant Pick(White, possibleMoves[i..], replies, alpha, bestMoves) == Pick(White, possibleMoves, replies, -100000, [])
    {
      var m := possibleMoves[i];
      assert possibleMoves[i..][0] == m && possibleMoves[i..][1..] == possibleMoves[i + 1..];
      var reply := TryReply(board, m, depth, White, alpha, beta);
      if reply.None? {
        return None;
      }
      var points := reply.value;
      if points > beta {
        return Some((100000, []));
      }
      if points > alpha {
        alpha := points;
        bestMoves := [(m.0, m.1, m.2, m.3, points)];
      } else if points == alpha {
        bestMoves := bestMoves + [(m.0, m.1, m.2, m.3, points)];
      }
    }
    return Some((alpha, bestMoves));
  }

  method Mini(board: Grid, alpha: int, beta: int, depth: nat) returns (result: Option<(int, seq<Entry>)>)
    requires Square8(board.cells)
    modifies board
    ensures result == Search(old(board.cells), Black, depth)
    ensures result.Some? ==> board.cells == old(board.cells)
    decreases depth, 2
  {
    if depth == 0 {
      var points, none := PositionEvaluation(board);
      return Some((points, none));
    }
    var possibleMoves := GenerateMoves(board, Black);
    if possibleMoves.None? {
      return None;
    }
    GeneratedInBoard(board.cells, Black);
    result := MiniMoves(board, depth, possibleMoves.value);
  }

  /** The move loop of mini; `beta` is the running best score, `alpha` the cutoff limit. */
  method MiniMoves(board: Grid, depth: nat, possibleMoves: seq<MoveTuple>) returns (result: Option<(int, seq<Entry>)>)
    requires Square8(board.cells) && depth >= 1 && forall m :: m in possibleMoves ==> MoveInBoard(m)
    modifies board
    ensures result == Pick(Black, possibleMoves, Replies(old(board.cells), Black, depth), 100000, [])
    ensures result.Some? ==> board.cells == old(board.cells)
    decreases depth, 1
  {
    hide ReplyScore, Search;
    ghost var g := board.cells;
    ghost var replies := Replies(g, Black, depth);
    var bestMoves := [];
    var alpha, beta := -100000, 100000;
    for i := 0 to |possibleMoves|
      invariant board.cells == g
      invariant Pick(Black, possibleMoves[i..], replies, beta, bestMoves) == Pick(Black, possibleMoves, replies, 100000, [])
    {
      var m := possibleMoves[i];
      assert possibleMoves[i..][0] == m && possibleMoves[i..][1..] == possibleMoves[i + 1..];
      var reply := TryReply(board, m, depth, Black, alpha, beta);
      if reply.None? {
        return None;
      }
      var points := reply.value;
      if points < alpha {
        return Some((-100000, []));
      }
      if points < beta {
        beta := points;
        bestMoves := [(m.0, m.1, m.2, m.3, points)];
      } else if points == beta {
        bestMoves := bestMoves + [(m.0, m.1, m.2, m.3, points)];
      }
    }
    return Some((beta, bestMoves));
  }

  /** Make move `m`, let the other side search one ply shallower, and undo the move. */
  method TryReply(board: Grid, m: MoveTuple, depth: nat, side: Colour, alpha: int, beta: int) returns (points: Option<int>)
    requires Square8(board.cells) && MoveInBoard(m) && depth >= 1
    modifies board
    ensures points == ReplyScore(old(board.cells), side, depth, m)
    ensures points.Some? ==> board.cells == old(board.cells)
    decreases depth, 0
  {
    hide ReplyScore, Search;
    ghost var g := board.cells;
    var temp := board.cells[m.2][m.3];
    MakeMove(board, m);
    var reply := Answer(board, side, alpha, beta, depth - 1);
    RepliesAt(g, side, depth, m, reply);
    if reply.None? {
      return None;
    }
    UndoMove(board, m, temp);
    UndoRestores(g, m.0, m.1, m.2, m.3);
    return Some(reply.value.0);
  }

  /** `board[nextRow][nextCol] = board[row][col]; board[row][col] = None`. */
  method MakeMove(board: Grid, m: MoveTuple)
    requires Square8(board.cells) && MoveInBoard(m)
    modifies board
    ensures board.cells == After(old(board.cells), m)
  {
    var (row, col, nextRow, nextCol) := m;
    board.cells := Put(board.cells, nextRow, nextCol, board.cells[row][col]);
    board.cells := Put(board.cells, row, col, None);
  }

  /** `board[row][col] = board[nextRow][nextCol]; board[nextRow][nextCol] = temp`. */
  method UndoMove(board: Grid, m: MoveTuple, temp: Cell)
    requires Square8(board.cells) && MoveInBoard(m)
    modifies board
    ensures board.cells == Put(Put(old(board.cells), m.0, m.1, old(board.cells)[m.2][m.3]), m.2, m.3, temp)
  {
    var (row, col, nextRow, nextCol) := m;
    board.cells := Put(board.cells, row, col, board.cells[nextRow][nextCol]);
    board.cells := Put(board.cells, nextRow, nextCol, temp);
  }

  /** The other side's search: mini after a white move, maxi after a black one. */
  method Answer(board: Grid, side: Colour, alpha: int, beta: int, depth: nat) returns (reply: Option<(int, seq<Entry>)>)
    requires Square8(board.cells)
    modifies board
    ensures reply == Search(old(board.cells), OtherColour(side), depth)
    ensures reply.Some? ==> board.cells == old(board.cells)
    decreases depth, 3
  {
    if side == White {
      reply := Mini(board, alpha, beta, depth);
    } else {
      reply := Maxi(board, alpha, beta, depth);
    }
  }

  /** The reply score to `m` is the score of the other side's search after `m`. */
  lemma RepliesAt(g: Rows, side: Colour, depth: nat, m: MoveTuple, reply: Option<(int, seq<Entry>)>)
    requires Square8(g) && depth >= 1 && MoveInBoard(m)
    requires reply == Search(After(g, m), OtherColour(side), depth - 1)
    ensures ReplyScore(g, side, depth, m) == if reply.None? then None else Some(reply.value.0)
  {
  }

  // ---------------------------------------------------------------------------
  // What the search computes

  /** Every reply that can be computed lies within the limits. */
  ghost predicate RepliesBounded(replies: MoveTuple -> Option<int>, ms: seq<MoveTuple>)
  {
    forall m :: m in ms && replies(m).Some? ==> -100000 <= replies(m).value <= 100000
  }

  lemma {:induction false} PickBounds(side: Colour, ms: seq<MoveTuple>, replies: MoveTuple -> Option<int>, bound: int, best: seq<Entry>)
    requires RepliesBounded(replies, ms) && -100000 <= bound <= 100000
    requires Pick(side, ms, replies, bound, best).Some?
    ensures -100000 <= Pick(side, ms, replies, bound, best).value.0 <= 100000
    decreases |ms|
  {
    if ms != [] {
      assert ms[0] in ms;
      var points := replies(ms[0]).value;
      assert RepliesBounded(replies, ms[1..]) by {
        forall m | m in ms[1..] ensures m in ms { }
      }
      if Beats(side, points, bound) {
        PickBounds(side, ms[1..], replies, points, [(ms[0].0, ms[0].1, ms[0].2, ms[0].3, points)]);
      } else if points == bound {
        PickBounds(side, ms[1..], replies, bound, best + [(ms[0].0, ms[0].1, ms[0].2, ms[0].3, points)]);
      } else {
        PickBounds(side, ms[1..], replies, bound, best);
      }
    }
  }

  /** Every score maxi and mini return lies within -100000..100000. */
  lemma {:induction false} SearchBounds(g: Rows, side: Colour, depth: nat)
    requires Square8(g) && Search(g, side, depth).Some?
    ensures -100000 <= Search(g, side, depth).value.0 <= 100000
    decreases depth, 1
  {
    hide GeneratedMoves, ReplyScore;
    if depth == 0 {
      EvaluationBound(g);
    } else {
      var ms := GeneratedMoves(g, side).value;
      GeneratedInBoard(g, side);
      var replies := Replies(g, side, depth);
      forall m | m in ms && replies(m).Some? ensures -100000 <= replies(m).value <= 100000 {
        ReplyBound(g, side, depth, m);
      }
      PickBounds(side, ms, replies, Worst(side), []);
    }
  }

  /** Every reply score that can be computed lies within -100000..100000. */
  lemma {:induction false} ReplyBound(g: Rows, side: Colour, depth: nat, m: MoveTuple)
    requires Square8(g) && depth >= 1 && MoveInBoard(m) && ReplyScore(g, side, depth, m).Some?
    ensures -100000 <= ReplyScore(g, side, depth, m).value <= 100000
    decreases depth, 0
  {
    hide *;
    var reply := Search(After(g, m), OtherColour(side), depth - 1);
    RepliesAt(g, side, depth, m, reply);
    SearchBounds(After(g, m), OtherColour(side), depth - 1);
  }

  /**
   * The cutoff tests of maxi and mini (`points > beta`, `points < alpha`)
   * never succeed: alpha and beta are reset to the limits on entry, and no
   * reply goes beyond them.
   */
  lemma CutoffNeverFires(g: Rows, side: Colour, depth: nat, m: MoveTuple)
    requires Square8(g) && depth >= 1 && MoveInBoard(m) && ReplyScore(g, side, depth, m).Some?
    ensures !Beats(side, ReplyScore(g, side, depth, m).value, -Worst(side))
  {
    ReplyBound(g, side, depth, m);
  }

  lemma {:induction false} PickMeaning(side: Colour, ms: seq<MoveTuple>, i: int, replies: MoveTuple -> Option<int>, bound: int, best: seq<Entry>)
    requires 0 <= i <= |ms| && RepliesBounded(replies, ms)
    requires Pick(side, ms[i..], replies, bound, best).Some?
    requires forall e :: e in best ==> e.4 == bound && MoveOf(e) in ms && replies(MoveOf(e)) == Some(bound)
    requires forall j :: 0 <= j < i ==> replies(ms[j]).Some? && !Beats(side, replies(ms[j]).value, bound)
    requires i == 0 ==> bound == Worst(side)
    requires i > 0 ==> best != []
    ensures var r := Pick(side, ms[i..], replies, bound, best).value;
      && (forall e :: e in r.1 ==> e.4 == r.0 && MoveOf(e) in ms && replies(MoveOf(e)) == Some(r.0))
      && (forall j :: 0 <= j < |ms| ==> replies(ms[j]).Some? && !Beats(side, replies(ms[j]).value, r.0))
      && (ms != [] ==> r.1 != [])
    decreases |ms| - i
  {
    if i < |ms| {
      var m := ms[i];
      assert ms[i..][0] == m && ms[i..][1..] == ms[i + 1..];
      var points := replies(m).value;
      var entry := (m.0, m.1, m.2, m.3, points);
      assert MoveOf(entry) == m;
      if Beats(side, points, bound) {
        PickMeaning(side, ms, i + 1, replies, points, [entry]);
      } else if points == bound {
        PickMeaning(side, ms, i + 1, replies, bound, best + [entry]);
      } else {
        PickMeaning(side, ms, i + 1, replies, bound, best);
      }
    }
  }

  /**
   * maxi/mini at depth >= 1: no generated move's reply is better for the side
   * than the returned score, every returned best move is a generated move whose
   * reply scores exactly that and carries it, the best list is empty only when
   * there are no moves, and then the score is the side's worst.
   */
  lemma SearchMeaning(g: Rows, side: Colour, depth: nat)
    requires Square8(g) && depth >= 1 && Search(g, side, depth).Some?
    ensures GeneratedMoves(g, side).Some?
    ensures var r, ms := Search(g, side, depth).value, GeneratedMoves(g, side).value;
      && (forall e :: e in r.1 ==> e.4 == r.0 && MoveOf(e) in ms && ReplyScore(g, side, depth, MoveOf(e)) == Some(r.0))
      && (forall m :: m in ms ==> ReplyScore(g, side, depth, m).Some? && !Beats(side, ReplyScore(g, side, depth, m).value, r.0))
      && (r.1 == [] <==> ms == [])
      && (ms == [] ==> r.0 == Worst(side))
  {
    hide GeneratedMoves, ReplyScore;
    var ms := GeneratedMoves(g, side).value;
    var replies := Replies(g, side, depth);
    GeneratedInBoard(g, side);
    forall m | m in ms && replies(m).Some? ensures -100000 <= replies(m).value <= 100000 {
      ReplyBound(g, side, depth, m);
    }
    PickMeaning(side, ms, 0, replies, Worst(side), []);
    forall m | m in ms ensures replies(m).Some? && !Beats(side, replies(m).value, Search(g, side, depth).value.0) {
      var j :| 0 <= j < |ms| && ms[j] == m;
    }
  }
}
