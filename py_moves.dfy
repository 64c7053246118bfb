/**
 * Move generation, the rule follow-ups after a move, and the crazyhouse drop
 * probe of the Python engine (ChessEngine.py).
 */
module PyMoves {
  import opened DataStructs
  import opened PyPieces
  import opened PyRules

  /** A generated move `(row, col, nextRow, nextCol)`. */
  type MoveTuple = (int, int, int, int)

  predicate MoveInBoard(m: MoveTuple) { InBoard(m.0, m.1) && InBoard(m.2, m.3) }

  /**
   * The displacements generateMoves tries besides a piece's `moves` list: a
   * pawn's captures and double step, and an unmoved king's two castling steps.
   */
  function ExtraOffsets(p: Piece): seq<Offset> {
    if p.kind == Pawn then PawnAttacks(p.colour) + PawnDouble(p.colour)
    else if p.kind == King && !p.hasMoved then [(0, 2), (0, -2)]
    else []
  }

  function Candidates(p: Piece): seq<Offset> { Moves(p) + ExtraOffsets(p) }

  /**
   * Every move isLegalMove accepts has its displacement among the ones
   * generateMoves tries, so nothing legal is missed by the tables.
   */
  lemma LegalIsCandidate(g: Rows, r: int, c: int, nr: int, nc: int)
    requires Square8(g) && InBoard(r, c) && InBoard(nr, nc) && g[r][c].Some?
    requires LegalMove(g, r, c, nr, nc)
    ensures (nr - r, nc - c) in Candidates(g[r][c].value)
  {
  }

  /** tryMove accepts only moves isLegalMove accepts. */
  lemma AcceptedIsLegal(g: Rows, r: int, c: int, nr: int, nc: int)
    requires Square8(g) && InBoard(r, c) && InBoard(nr, nc) && g[r][c].Some?
    requires TryMoveOutcome(g, r, c, nr, nc) == Some(true)
    ensures LegalMove(g, r, c, nr, nc)
  {
  }

  // ---------------------------------------------------------------------------
  // generateMoves

  /**
   * The answer `probe` gives for each displacement of `offs` from (r, c) that
   * lands on the board, in order, appending the accepted moves to `acc`;
   * `None` as soon as a probe raises.
   */
  function TriedWith(probe: (int, int) -> Option<bool>, r: int, c: int, offs: seq<Offset>, acc: seq<MoveTuple>): Option<seq<MoveTuple>>
    decreases |offs|
  {
    if offs == [] then Some(acc)
    else
      var nr, nc := r + offs[0].0, c + offs[0].1;
      if !InBoard(nr, nc) then TriedWith(probe, r, c, offs[1..], acc)
      else
        match probe(nr, nc)
        case None => None
        case Some(ok) => TriedWith(probe, r, c, offs[1..], if ok then acc + [(r, c, nr, nc)] else acc)
  }

  /** tryMove from (r, c), as a function of the destination. */
  function Probe(g: Rows, r: int, c: int): (int, int) -> Option<bool>
    requires Square8(g) && InBoard(r, c) && g[r][c].Some?
  {
    (nr: int, nc: int) => if InBoard(nr, nc) then TryMoveOutcome(g, r, c, nr, nc) else None
  }

  /** The tryMove loops of generateMoves for the piece on (r, c) over `offs`. */
  function Tried(g: Rows, r: int, c: int, offs: seq<Offset>, acc: seq<MoveTuple>): Option<seq<MoveTuple>>
    requires Square8(g) && InBoard(r, c) && g[r][c].Some?
  {
    TriedWith(Probe(g, r, c), r, c, offs, acc)
  }

  /** The scan of generateMoves from square (r, c) on, in row-major order. */
  function MovesFrom(g: Rows, colour: Colour, r: int, c: int, acc: seq<MoveTuple>): Option<seq<MoveTuple>>
    requires Square8(g) && 0 <= r <= 8 && 0 <= c <= 8
    decreases 8 - r, 8 - c
  {
    if r == 8 then Some(acc)
    else if c == 8 then MovesFrom(g, colour, r + 1, 0, acc)
    else if g[r][c].Some? && g[r][c].value.colour == colour then
      match Tried(g, r, c, Candidates(g[r][c].value), acc)
      case None => None
      case Some(found) => MovesFrom(g, colour, r, c + 1, found)
    else MovesFrom(g, colour, r, c + 1, acc)
  }

  /** generateMoves: the moves of `colour`'s pieces that tryMove accepts; `None` when a tryMove raises. */
  function GeneratedMoves(g: Rows, colour: Colour): Option<seq<MoveTuple>>
    requires Square8(g)
  {
    MovesFrom(g, colour, 0, 0, [])
  }

  /** A move generateMoves is meant to produce: a piece of `colour` moving on the board as tryMove accepts. */
  predicate Accepted(g: Rows, colour: Colour, m: MoveTuple)
    requires Square8(g)
  {
    && MoveInBoard(m)
    && g[m.0][m.1].Some? && g[m.0][m.1].value.colour == colour
    && TryMoveOutcome(g, m.0, m.1, m.2, m.3) == Some(true)
  }

  lemma {:induction false} TriedExact(probe: (int, int) -> Option<bool>, r: int, c: int, offs: seq<Offset>, acc: seq<MoveTuple>, m: MoveTuple)
    requires TriedWith(probe, r, c, offs, acc).Some?
    ensures m in TriedWith(probe, r, c, offs, acc).value <==>
      || m in acc
      || (m.0 == r && m.1 == c && (m.2 - r, m.3 - c) in offs && InBoard(m.2, m.3) && probe(m.2, m.3) == Some(true))
    decreases |offs|
  {
    if offs != [] {
      var nr, nc := r + offs[0].0, c + offs[0].1;
      if !InBoard(nr, nc) {
        TriedExact(probe, r, c, offs[1..], acc, m);
      } else {
        var ok := probe(nr, nc).value;
        TriedExact(probe, r, c, offs[1..], if ok then acc + [(r, c, nr, nc)] else acc, m);
      }
    }
  }

  /** The moves found for the piece on (r, c): those tryMove accepts from there. */
  lemma PieceExact(g: Rows, r: int, c: int, acc: seq<MoveTuple>, m: MoveTuple)
    requires Square8(g) && InBoard(r, c) && g[r][c].Some?
    requires Tried(g, r, c, Candidates(g[r][c].value), acc).Some?
    ensures m in Tried(g, r, c, Candidates(g[r][c].value), acc).value <==>
      m in acc || (m.0 == r && m.1 == c && MoveInBoard(m) && TryMoveOutcome(g, r, c, m.2, m.3) == Some(true))
  {
    var offs, probe := Candidates(g[r][c].value), Probe(g, r, c);
    assert Tried(g, r, c, offs, acc) == TriedWith(probe, r, c, offs, acc);
    assert InBoard(m.2, m.3) ==> probe(m.2, m.3) == TryMoveOutcome(g, r, c, m.2, m.3);
    assert MoveInBoard(m) <==> InBoard(m.0, m.1) && InBoard(m.2, m.3);
    hide *;
    TriedExact(probe, r, c, offs, acc, m);
    if m.0 == r && m.1 == c && MoveInBoard(m) && TryMoveOutcome(g, r, c, m.2, m.3) == Some(true) {
      AcceptedIsLegal(g, r, c, m.2, m.3);
      LegalIsCandidate(g, r, c, m.2, m.3);
    }
  }

  /** Row-major order: square (i, j) is not before (r, c). */
  predicate NotBefore(i: int, j: int, r: int, c: int) { i > r || (i == r && j >= c) }

  lemma {:induction false} MovesFromExact(g: Rows, colour: Colour, r: int, c: int, acc: seq<MoveTuple>, m: MoveTuple)
    requires Square8(g) && 0 <= r <= 8 && 0 <= c <= 8
    requires MovesFrom(g, colour, r, c, acc).Some?
    ensures m in MovesFrom(g, colour, r, c, acc).value <==>
      m in acc || (Accepted(g, colour, m) && NotBefore(m.0, m.1, r, c))
    decreases 8 - r, 8 - c
  {
    if r == 8 {
    } else if c == 8 {
      MovesFromExact(g, colour, r + 1, 0, acc, m);
    } else if g[r][c].Some? && g[r][c].value.colour == colour {
      var found := Tried(g, r, c, Candidates(g[r][c].value), acc).value;
      PieceExact(g, r, c, acc, m);
      MovesFromExact(g, colour, r, c + 1, found, m);
    } else {
      MovesFromExact(g, colour, r, c + 1, acc, m);
    }
  }

  /** generateMoves returns exactly the moves of `colour` that tryMove accepts. */
  lemma GeneratedExact(g: Rows, colour: Colour, m: MoveTuple)
    requires Square8(g) && GeneratedMoves(g, colour).Some?
    ensures m in GeneratedMoves(g, colour).value <==> Accepted(g, colour, m)
  {
    MovesFromExact(g, colour, 0, 0, [], m);
  }

  /** Every generated move lies on the board. */
  lemma GeneratedInBoard(g: Rows, colour: Colour)
    requires Square8(g) && GeneratedMoves(g, colour).Some?
    ensures forall m :: m in GeneratedMoves(g, colour).value ==> MoveInBoard(m)
  {
    forall m | m in GeneratedMoves(g, colour).value ensures MoveInBoard(m) {
      GeneratedExact(g, colour, m);
    }
  }

  /** A side with a king on the board: no tryMove of generateMoves raises. */
  ghost predicate HasKing(g: Rows, colour: Colour)
    requires Square8(g)
  {
    exists i, j :: InBoard(i, j) && IsKingOf(g[i][j], colour)
  }

  lemma {:induction false} TriedDefined(probe: (int, int) -> Option<bool>, r: int, c: int, offs: seq<Offset>, acc: seq<MoveTuple>)
    requires forall nr, nc :: InBoard(nr, nc) ==> probe(nr, nc).Some?
    ensures TriedWith(probe, r, c, offs, acc).Some?
    decreases |offs|
  {
    if offs != [] {
      var nr, nc := r + offs[0].0, c + offs[0].1;
      if InBoard(nr, nc) {
        var ok := probe(nr, nc).value;
        TriedDefined(probe, r, c, offs[1..], if ok then acc + [(r, c, nr, nc)] else acc);
      } else {
        TriedDefined(probe, r, c, offs[1..], acc);
      }
    }
  }

  /** With a king of the mover's colour on the board, tryMove never raises. */
  lemma ProbeDefined(g: Rows, r: int, c: int)
    requires Square8(g) && InBoard(r, c) && g[r][c].Some? && HasKing(g, g[r][c].value.colour)
    ensures forall nr, nc :: InBoard(nr, nc) ==> Probe(g, r, c)(nr, nc).Some?
  {
    forall nr, nc | InBoard(nr, nc) ensures Probe(g, r, c)(nr, nc).Some? {
      TryMoveRaises(g, r, c, nr, nc);
    }
  }

  lemma PieceDefined(g: Rows, r: int, c: int, acc: seq<MoveTuple>)
    requires Square8(g) && InBoard(r, c) && g[r][c].Some? && HasKing(g, g[r][c].value.colour)
    ensures Tried(g, r, c, Candidates(g[r][c].value), acc).Some?
  {
    ProbeDefined(g, r, c);
    TriedDefined(Probe(g, r, c), r, c, Candidates(g[r][c].value), acc);
  }

  lemma {:induction false} MovesFromDefined(g: Rows, colour: Colour, r: int, c: int, acc: seq<MoveTuple>)
    requires Square8(g) && 0 <= r <= 8 && 0 <= c <= 8 && HasKing(g, colour)
    ensures MovesFrom(g, colour, r, c, acc).Some?
    decreases 8 - r, 8 - c
  {
    if r == 8 {
    } else if c == 8 {
      MovesFromDefined(g, colour, r + 1, 0, acc);
    } else if g[r][c].Some? && g[r][c].value.colour == colour {
      PieceDefined(g, r, c, acc);
      MovesFromDefined(g, colour, r, c + 1, Tried(g, r, c, Candidates(g[r][c].value), acc).value);
    } else {
      MovesFromDefined(g, colour, r, c + 1, acc);
    }
  }

  /** generateMoves raises only for a side without a king. */
  lemma GeneratedDefined(g: Rows, colour: Colour)
    requires Square8(g) && HasKing(g, colour)
    ensures GeneratedMoves(g, colour).Some?
  {
    MovesFromDefined(g, colour, 0, 0, []);
  }

  /** tryMove over `offs` from (row, col), appending accepted moves to `acc`. */
  method TryOffsets(board: Grid, row: int, col: int, offs: seq<Offset>, acc: seq<MoveTuple>) returns (found: Option<seq<MoveTuple>>)
    requires Square8(board.cells) && InBoard(row, col) && board.cells[row][col].Some?
    modifies board
    ensures found == Tried(old(board.cells), row, col, offs, acc)
    ensures found.Some? ==> board.cells == old(board.cells)
  {
    ghost var g := board.cells;
    var possibleMoves := acc;
    for i := 0 to |offs|
      invariant board.cells == g
      invariant Tried(g, row, col, offs[i..], possibleMoves) == Tried(g, row, col, offs, acc)
    {
      var (drow, dcol) := offs[i];
      var nextRow, nextCol := row + drow, col + dcol;
      assert offs[i..][1..] == offs[i + 1..];
      if InBoard(nextRow, nextCol) {
        var ok := TryMove(board, row, col, nextRow, nextCol);
        if ok.None? {
          return None;
        }
        if ok.value {
          possibleMoves := possibleMoves + [(row, col, nextRow, nextCol)];
        }
      }
    }
    return Some(possibleMoves);
  }

  lemma {:induction false} TriedAppend(probe: (int, int) -> Option<bool>, r: int, c: int, xs: seq<Offset>, ys: seq<Offset>, acc: seq<MoveTuple>)
    ensures TriedWith(probe, r, c, xs + ys, acc) ==
      match TriedWith(probe, r, c, xs, acc)
      case None => None
      case Some(mid) => TriedWith(probe, r, c, ys, mid)
    decreases |xs|
  {
    if xs == [] {
      assert xs + ys == ys;
    } else {
      assert (xs + ys)[1..] == xs[1..] + ys;
      var nr, nc := r + xs[0].0, c + xs[0].1;
      if !InBoard(nr, nc) {
        TriedAppend(probe, r, c, xs[1..], ys, acc);
      } else if probe(nr, nc).Some? {
        var ok := probe(nr, nc).value;
        TriedAppend(probe, r, c, xs[1..], ys, if ok then acc + [(r, c, nr, nc)] else acc);
      }
    }
  }

  /** The body of generateMoves for one piece: its `moves` list, then its extra displacements. */
  method PieceMoves(board: Grid, row: int, col: int, acc: seq<MoveTuple>) returns (found: Option<seq<MoveTuple>>)
    requires Square8(board.cells) && InBoard(row, col) && board.cells[row][col].Some?
    modifies board
    ensures found == Tried(old(board.cells), row, col, Candidates(old(board.cells)[row][col].value), acc)
    ensures found.Some? ==> board.cells == old(board.cells)
  {
    ghost var g := board.cells;
    var p := board.cells[row][col].value;
    TriedAppend(Probe(g, row, col), row, col, Moves(p), ExtraOffsets(p), acc);
    found := TryOffsets(board, row, col, Moves(p), acc);
    if found.None? {
      return;
    }
    found := TryOffsets(board, row, col, ExtraOffsets(p), found.value);
  }

  method GenerateMoves(board: Grid, colour: Colour) returns (moves: Option<seq<MoveTuple>>)
    requires Square8(board.cells)
    modifies board
    ensures moves == GeneratedMoves(old(board.cells), colour)
    ensures moves.Some? ==> board.cells == old(board.cells)
  {
    ghost var g := board.cells;
    var possibleMoves := [];
    for row := 0 to 8
      invariant board.cells == g
      invariant MovesFrom(g, colour, row, 0, possibleMoves) == GeneratedMoves(g, colour)
    {
      for col := 0 to 8
        invariant board.cells == g
        invariant MovesFrom(g, colour, row, col, possibleMoves) == GeneratedMoves(g, colour)
      {
        if board.cells[row][col] != None && board.cells[row][col].value.colour == colour {
          var found := PieceMoves(board, row, col, possibleMoves);
          if found.None? {
            return None;
          }
          possibleMoves := found.value;
        }
      }
    }
    return Some(possibleMoves);
  }

  // ---------------------------------------------------------------------------
  // specialRules

  /** The pieces promotePawn can put on the square; after three unusable answers it picks a queen. */
  predicate PromotionChoice(k: Kind) { k == Queen || k == Rook || k == Bishop || k == Knight }

  predicate UnmovedKing(x: Cell) { x.Some? && x.value.kind == King && !x.value.hasMoved }

  /** The classes that carry a `hasMoved` flag. */
  predicate TracksMoves(x: Cell) { x.Some? && (x.value.kind == Pawn || x.value.kind == King || x.value.kind == Rook) }

  /**
   * specialRules on the piece that has just arrived on (row, col): an unmoved
   * king on column 2 or 6 brings the corner rook of its row across, a pawn on
   * row 0 or 7 becomes the `promotion` piece, and then a pawn, king or rook on
   * the square is marked as moved.
   */
  function AfterSpecialRules(g: Rows, row: int, col: int, promotion: Kind): (h: Rows)
    requires Square8(g) && InBoard(row, col)
    ensures Square8(h)
  {
    var x := g[row][col];
    var placed :=
      if UnmovedKing(x) && col == 2 then Put(Put(g, row, 3, g[row][0]), row, 0, None)
      else if UnmovedKing(x) && col == 6 then Put(Put(g, row, 5, g[row][7]), row, 7, None)
      else if x.Some? && x.value.kind == Pawn && (row == 0 || row == 7) then Put(g, row, col, Some(NewPiece(promotion, x.value.colour)))
      else g;
    var y := placed[row][col];
    if TracksMoves(y) then Put(placed, row, col, Some(y.value.(hasMoved := true))) else placed
  }

  method SpecialRules(board: Grid, row: int, col: int, promotion: Kind)
    requires Square8(board.cells) && InBoard(row, col) && PromotionChoice(promotion)
    modifies board
    ensures board.cells == AfterSpecialRules(old(board.cells), row, col, promotion)
  {
    var x := board.cells[row][col];
    if x.Some? && x.value.kind == King && !x.value.hasMoved && col == 2 {
      var rook := board.cells[row][0];
      board.cells := Put(board.cells, row, 3, rook);
      board.cells := Put(board.cells, row, 0, None);
    } else if x.Some? && x.value.kind == King && !x.value.hasMoved && col == 6 {
      var rook := board.cells[row][7];
      board.cells := Put(board.cells, row, 5, rook);
      board.cells := Put(board.cells, row, 7, None);
    } else if x.Some? && x.value.kind == Pawn && (row == 0 || row == 7) {
      board.cells := Put(board.cells, row, col, Some(NewPiece(promotion, x.value.colour)));
    }
    var y := board.cells[row][col];
    if y.Some? && (y.value.kind == Pawn || y.value.kind == King || y.value.kind == Rook) {
      board.cells := Put(board.cells, row, col, Some(y.value.(hasMoved := true)));
    }
  }

  /** Castling to column 2 or 6: the corner rook lands beside the king, the corner empties, the king is marked as moved. */
  lemma CastlingMovesRook(g: Rows, row: int, col: int, promotion: Kind)
    requires Square8(g) && InBoard(row, col) && UnmovedKing(g[row][col]) && (col == 2 || col == 6)
    ensures var h, corner, beside := AfterSpecialRules(g, row, col, promotion), (if col == 2 then 0 else 7), (if col == 2 then 3 else 5);
      && h[row][beside] == g[row][corner]
      && h[row][corner] == None
      && h[row][col] == Some(g[row][col].value.(hasMoved := true))
      && forall i, j :: InBoard(i, j) && (i != row || (j != col && j != corner && j != beside)) ==> h[i][j] == g[i][j]
  {
  }

  /** A pawn reaching row 0 or 7 becomes the chosen piece of its colour; a promoted rook is marked as moved. */
  lemma PromotionReplacesPawn(g: Rows, row: int, col: int, promotion: Kind)
    requires Square8(g) && InBoard(row, col) && g[row][col].Some? && g[row][col].value.kind == Pawn && (row == 0 || row == 7)
    requires PromotionChoice(promotion)
    ensures var h := AfterSpecialRules(g, row, col, promotion);
      && h[row][col] == Some(Piece(promotion, g[row][col].value.colour, promotion == Rook))
      && forall i, j :: InBoard(i, j) && (i != row || j != col) ==> h[i][j] == g[i][j]
  {
  }

  /** In every other case only the flag of the arriving piece can change. */
  lemma OtherwiseOnlyMarks(g: Rows, row: int, col: int, promotion: Kind)
    requires Square8(g) && InBoard(row, col)
    requires !(UnmovedKing(g[row][col]) && (col == 2 || col == 6))
    requires !(g[row][col].Some? && g[row][col].value.kind == Pawn && (row == 0 || row == 7))
    ensures var h := AfterSpecialRules(g, row, col, promotion);
      && (TracksMoves(g[row][col]) ==> h[row][col] == Some(g[row][col].value.(hasMoved := true)))
      && (!TracksMoves(g[row][col]) ==> h[row][col] == g[row][col])
      && forall i, j :: InBoard(i, j) && (i != row || j != col) ==> h[i][j] == g[i][j]
  {
  }

  // ---------------------------------------------------------------------------
  // tryCrazyhouseMove

  /** The `pieces` list of tryCrazyhouseMove, indexed by the drop column of the captured-piece tray. */
  function DropKinds(): seq<Kind> { [Queen, Rook, Bishop, Knight, Pawn] }

  /** `pieces[previousCol]`, with Python's negative indexing; `None` is the IndexError. */
  function DropKind(previousCol: int): (k: Option<Kind>)
    ensures k.Some? <==> -5 <= previousCol < 5
    ensures k.Some? ==> k.value != King
  {
    if 0 <= previousCol < 5 then Some(DropKinds()[previousCol])
    else if -5 <= previousCol < 0 then Some(DropKinds()[previousCol + 5])
    else None
  }

  /** The tray row 8 holds black's pieces; any other row is taken as white's. */
  function DropColour(previousRow: int): Colour { if previousRow == 8 then Black else White }

  /**
   * tryCrazyhouseMove: `Some(false)` for an occupied square or a pawn on an end
   * row; otherwise the piece is placed and `Some(b)` says whether the dropping
   * side's king is then out of check. `None` is an IndexError on
   * `pieces[previousCol]` or the TypeError raised when that side has no king.
   */
  function DropOutcome(g: Rows, previousRow: int, previousCol: int, row: int, col: int): Option<bool>
    requires Square8(g) && InBoard(row, col)
  {
    if g[row][col].Some? then Some(false)
    else match DropKind(previousCol)
      case None => None
      case Some(kind) =>
        if kind == Pawn && (row == 0 || row == 7) then Some(false)
        else
          var colour := DropColour(previousRow);
          var m := Put(g, row, col, Some(NewPiece(kind, colour)));
          match KingSquare(m, colour)
          case None => None
          case Some(k) => Some(!InCheck(m, k.0, k.1))
  }

  /** Putting back what a square held restores the board. */
  lemma PutBack(g: Rows, r: int, c: int, x: Cell)
    requires Square8(g) && InBoard(r, c)
    ensures Put(Put(g, r, c, x), r, c, g[r][c]) == g
  {
    SameRows(Put(Put(g, r, c, x), r, c, g[r][c]), g);
  }

  method TryCrazyhouseMove(board: Grid, previousRow: int, previousCol: int, row: int, col: int) returns (ok: Option<bool>)
    requires Square8(board.cells) && InBoard(row, col)
    modifies board
    ensures ok == DropOutcome(old(board.cells), previousRow, previousCol, row, col)
    ensures ok.Some? ==> board.cells == old(board.cells)
  {
    ghost var g := board.cells;
    var pieces := DropKinds();
    if board.cells[row][col] != None {
      return Some(false);
    }
    if !(-5 <= previousCol < 5) {
      return None;
    }
    var kind := if previousCol < 0 then pieces[previousCol + 5] else pieces[previousCol];
    if kind == Pawn && (row == 0 || row == 7) {
      return Some(false);
    }
    var playerColour := if previousRow == 8 then Black else White;
    board.cells := Put(board.cells, row, col, Some(NewPiece(kind, playerColour)));
    var king := FindKing(board, playerColour);
    if king.None? {
      return None;
    }
    var inCheck := IsInCheck(board, king.value.0, king.value.1);
    board.cells := Put(board.cells, row, col, None);
    PutBack(g, row, col, Some(NewPiece(kind, playerColour)));
    return Some(!inCheck);
  }

  /**
   * A drop is accepted exactly onto an empty square, with a valid tray index,
   * not a pawn on an end row, and when afterwards the dropping side has a king
   * that no enemy piece may legally take.
   */
  lemma DropExact(g: Rows, previousRow: int, previousCol: int, row: int, col: int)
    requires Square8(g) && InBoard(row, col)
    ensures DropOutcome(g, previousRow, previousCol, row, col) == Some(true) <==>
      && g[row][col].None?
      && DropKind(previousCol).Some?
      && !(DropKind(previousCol).value == Pawn && (row == 0 || row == 7))
      && KingSafe(Put(g, row, col, Some(NewPiece(DropKind(previousCol).value, DropColour(previousRow)))), DropColour(previousRow))
  {
    if g[row][col].None? && DropKind(previousCol).Some? {
      var kind, colour := DropKind(previousCol).value, DropColour(previousRow);
      var m := Put(g, row, col, Some(NewPiece(kind, colour)));
      var k := KingSquare(m, colour);
      if k.Some? {
        InCheckExact(m, k.value.0, k.value.1);
      }
    }
  }

  /** A drop onto an occupied square, or of a pawn onto row 0 or 7, is refused. */
  lemma DropRefused(g: Rows, previousRow: int, previousCol: int, row: int, col: int)
    requires Square8(g) && InBoard(row, col)
    requires g[row][col].Some? || (DropKind(previousCol) == Some(Pawn) && (row == 0 || row == 7))
    ensures DropOutcome(g, previousRow, previousCol, row, col) == Some(false)
  {
  }

  /** The drop raises only for a bad tray index or a side without a king (the dropped piece is never a king). */
  lemma DropRaises(g: Rows, previousRow: int, previousCol: int, row: int, col: int)
    requires Square8(g) && InBoard(row, col)
    ensures DropOutcome(g, previousRow, previousCol, row, col) == None <==>
      && g[row][col].None?
      && (|| DropKind(previousCol).None?
          || (!(DropKind(previousCol).value == Pawn && (row == 0 || row == 7)) && !HasKing(g, DropColour(previousRow))))
  {
    if g[row][col].None? && DropKind(previousCol).Some? {
      var kind, colour := DropKind(previousCol).value, DropColour(previousRow);
      var m := Put(g, row, col, Some(NewPiece(kind, colour)));
      if HasKing(g, colour) {
        var i, j :| InBoard(i, j) && IsKingOf(g[i][j], colour);
        assert IsKingOf(m[i][j], colour);
      }
      if HasKing(m, colour) {
        var i, j :| InBoard(i, j) && IsKingOf(m[i][j], colour);
        assert IsKingOf(g[i][j], colour);
      }
    }
  }
}
