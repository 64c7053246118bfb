/**
 * The rule checks of the Python engine (ChessEngine.py): isLegalMove,
 * findKing, isInCheck and tryMove, each a specification function on the
 * board's rows and a method that runs the engine's loops over the board list.
 */
module PyRules {
  import opened DataStructs
  import opened PyPieces

  predicate UnmovedRook(x: Cell) { x.Some? && x.value.kind == Rook && !x.value.hasMoved }

  /**
   * The first test of isLegalMove: a displacement in the piece's table passes
   * unless the piece is a pawn; otherwise only a pawn's double step onto an
   * empty square (while unmoved), its diagonal capture of an enemy, its single
   * step onto an empty square, or an unmoved king's two-square step toward an
   * unmoved rook in the corner of its row pass.
   */
  predicate MovePattern(g: Rows, r: int, c: int, nr: int, nc: int)
    requires Square8(g) && InBoard(r, c) && InBoard(nr, nc) && g[r][c].Some?
  {
    var p := g[r][c].value;
    var d := (nr - r, nc - c);
    var target := g[nr][nc];
    if d !in Moves(p) || p.kind == Pawn then
      if p.kind == Pawn then
        (!p.hasMoved && d in PawnDouble(p.colour) && target.None?)
        || (d in PawnAttacks(p.colour) && target.Some? && target.value.colour != p.colour)
        || (d in Moves(p) && target.None?)
      else if p.kind == King && !p.hasMoved then
        (d == (0, -2) && UnmovedRook(g[r][0])) || (d == (0, 2) && UnmovedRook(g[r][7]))
      else false
    else true
  }

  /** Whatever passes the first test, for any piece but a knight, is a line of at most seven steps. */
  lemma PatternLine(g: Rows, r: int, c: int, nr: int, nc: int)
    requires Square8(g) && InBoard(r, c) && InBoard(nr, nc) && g[r][c].Some?
    requires MovePattern(g, r, c, nr, nc) && g[r][c].value.kind != Knight
    ensures IsLine((nr - r, nc - c)) && Steps((nr - r, nc - c)) <= 7
  {
    var d := (nr - r, nc - c);
    if d in Moves(g[r][c].value) {
      MovesAreLines(g[r][c].value, d);
    }
  }

  /** The squares `k`, `k + 1`, ... `n - 1` unit steps from (r, c) are empty. */
  predicate ClearFrom(g: Rows, r: int, c: int, ur: int, uc: int, k: nat, n: nat)
    requires Square8(g) && InBoard(r, c) && InBoard(Along(r, ur, n), Along(c, uc, n))
    requires -1 <= ur <= 1 && -1 <= uc <= 1 && 1 <= k
    decreases n - k
  {
    k >= n || (g[Along(r, ur, k)][Along(c, uc, k)].None? && ClearFrom(g, r, c, ur, uc, k + 1, n))
  }

  /** The walk of isLegalMove: every square strictly between origin and destination is empty. */
  predicate PathClear(g: Rows, r: int, c: int, nr: int, nc: int)
    requires Square8(g) && InBoard(r, c) && InBoard(nr, nc) && IsLine((nr - r, nc - c))
  {
    LineReach((nr - r, nc - c));
    ClearFrom(g, r, c, Sign(nr - r), Sign(nc - c), 1, Steps((nr - r, nc - c)))
  }

  /** The walk checks exactly the squares between: both directions. */
  lemma {:induction false} ClearFromExact(g: Rows, r: int, c: int, ur: int, uc: int, k: nat, n: nat)
    requires Square8(g) && InBoard(r, c) && InBoard(Along(r, ur, n), Along(c, uc, n))
    requires -1 <= ur <= 1 && -1 <= uc <= 1 && 1 <= k
    ensures ClearFrom(g, r, c, ur, uc, k, n) <==>
      forall i :: k <= i < n ==> g[Along(r, ur, i)][Along(c, uc, i)].None?
    decreases n - k
  {
    if k < n {
      ClearFromExact(g, r, c, ur, uc, k + 1, n);
    }
  }

  /** isLegalMove: the first test, the walk for every piece but a knight, and no capture of one's own colour. */
  predicate LegalMove(g: Rows, r: int, c: int, nr: int, nc: int)
    requires Square8(g) && InBoard(r, c) && InBoard(nr, nc) && g[r][c].Some?
  {
    MovePattern(g, r, c, nr, nc)
    && (g[r][c].value.kind == Knight || (PatternLine(g, r, c, nr, nc); PathClear(g, r, c, nr, nc)))
    && !(g[nr][nc].Some? && g[nr][nc].value.colour == g[r][c].value.colour)
  }

  function Max(a: int, b: int): int { if a >= b then a else b }

  /** `step // max(abs(step), 1)`: the unit step, by floor division as Python computes it. */
  lemma UnitIsSign(step: int)
    ensures step / Max(Abs(step), 1) == Sign(step)
  {
    if step > 0 {
      assert step / step == 1;
    } else if step < 0 {
      assert step == (-1) * (-step);
    }
  }

  method IsLegalMove(board: Grid, currentRow: int, currentCol: int, nextRow: int, nextCol: int) returns (legal: bool)
    requires Square8(board.cells) && InBoard(currentRow, currentCol) && InBoard(nextRow, nextCol)
    requires board.cells[currentRow][currentCol].Some?
    ensures legal == LegalMove(board.cells, currentRow, currentCol, nextRow, nextCol)
  {
    var self := board.cells[currentRow][currentCol].value;
    var pattern := CheckPattern(board, currentRow, currentCol, nextRow, nextCol);
    if !pattern {
      return false;
    }
    if self.kind != Knight {
      PatternLine(board.cells, currentRow, currentCol, nextRow, nextCol);
      var clear := WalkPath(board, currentRow, currentCol, nextRow, nextCol);
      if !clear {
        return false;
      }
    }
    if board.cells[nextRow][nextCol] != None && board.cells[nextRow][nextCol].value.colour == self.colour {
      return false;
    }
    return true;
  }

  /** The first block of isLegalMove: the move table and the pawn and king special cases. */
  method CheckPattern(board: Grid, currentRow: int, currentCol: int, nextRow: int, nextCol: int) returns (pass: bool)
    requires Square8(board.cells) && InBoard(currentRow, currentCol) && InBoard(nextRow, nextCol)
    requires board.cells[currentRow][currentCol].Some?
    ensures pass == MovePattern(board.cells, currentRow, currentCol, nextRow, nextCol)
  {
    hide Moves, PawnDouble, PawnAttacks;
    var g: Rows := board.cells;
    var self: Piece := g[currentRow][currentCol].value;
    var dRow, dCol := nextRow - currentRow, nextCol - currentCol;
    if (dRow, dCol) !in Moves(self) || self.kind == Pawn {
      if self.kind == Pawn {
        if !self.hasMoved && (dRow, dCol) in PawnDouble(self.colour) && g[nextRow][nextCol] == None {
        } else if (dRow, dCol) in PawnAttacks(self.colour) && g[nextRow][nextCol] != None
          && g[nextRow][nextCol].value.colour != self.colour {
        } else if (dRow, dCol) in Moves(self) && g[nextRow][nextCol] == None {
        } else {
          return false;
        }
      } else if self.kind == King && !self.hasMoved {
        if (dRow, dCol) == (0, -2) && UnmovedRook(g[currentRow][0]) {
        } else if (dRow, dCol) == (0, 2) && UnmovedRook(g[currentRow][7]) {
        } else {
          return false;
        }
      } else {
        return false;
      }
    }
    return true;
  }

  /** The walk of isLegalMove, one unit step at a time from the origin to the destination. */
  method WalkPath(board: Grid, currentRow: int, currentCol: int, nextRow: int, nextCol: int) returns (clear: bool)
    requires Square8(board.cells) && InBoard(currentRow, currentCol) && InBoard(nextRow, nextCol)
    requires IsLine((nextRow - currentRow, nextCol - currentCol))
    ensures clear == PathClear(board.cells, currentRow, currentCol, nextRow, nextCol)
  {
    var g: Rows := board.cells;
    var stepR, stepC := nextRow - currentRow, nextCol - currentCol;
    var unitR, unitC := stepR / Max(Abs(stepR), 1), stepC / Max(Abs(stepC), 1);
    UnitIsSign(stepR);
    UnitIsSign(stepC);
    LineReach((stepR, stepC));
    ghost var n := Steps((stepR, stepC));
    ghost var k := 1;
    var tempRow, tempCol := currentRow + unitR, currentCol + unitC;
    while (tempRow, tempCol) != (nextRow, nextCol)
      invariant 1 <= k <= n
      invariant tempRow == Along(currentRow, unitR, k) && tempCol == Along(currentCol, unitC, k)
      invariant PathClear(g, currentRow, currentCol, nextRow, nextCol) == ClearFrom(g, currentRow, currentCol, unitR, unitC, k, n)
      decreases n - k
    {
      if g[tempRow][tempCol] != None {
        return false;
      }
      tempRow, tempCol := tempRow + unitR, tempCol + unitC;
      k := k + 1;
    }
    return true;
  }

  // ---------------------------------------------------------------------------
  // findKing

  /** `King(colour) == x`: King.__eq__ compares the class and the colour only. */
  predicate IsKingOf(x: Cell, colour: Colour) { x.Some? && x.value.kind == King && x.value.colour == colour }

  /** `row.index(King(colour))` searched from `from`: the first king of that colour. */
  function KingIndex(row: seq<Cell>, colour: Colour, from: nat): (i: Option<int>)
    ensures i.Some? ==>
      && from <= i.value < |row| && IsKingOf(row[i.value], colour)
      && forall j :: from <= j < i.value ==> !IsKingOf(row[j], colour)
    ensures i.None? ==> forall j :: from <= j < |row| ==> !IsKingOf(row[j], colour)
    decreases |row| - from
  {
    if from >= |row| then None
    else if IsKingOf(row[from], colour) then Some(from)
    else KingIndex(row, colour, from + 1)
  }

  /** findKing's scan from row `row` on: the first row holding such a king, and its first column there. */
  function KingFrom(g: Rows, colour: Colour, row: nat): (k: Option<(int, int)>)
    requires Square8(g)
    ensures k.Some? ==> row <= k.value.0 && InBoard(k.value.0, k.value.1) && IsKingOf(g[k.value.0][k.value.1], colour)
    ensures k.Some? ==> forall i, j :: row <= i < k.value.0 && 0 <= j < 8 ==> !IsKingOf(g[i][j], colour)
    ensures k.Some? ==> forall j :: 0 <= j < k.value.1 ==> !IsKingOf(g[k.value.0][j], colour)
    ensures k.None? ==> forall i, j :: row <= i < 8 && 0 <= j < 8 ==> !IsKingOf(g[i][j], colour)
    decreases 8 - row
  {
    if row >= 8 then None
    else
      match KingIndex(g[row], colour, 0)
      case Some(col) => Some((row, col))
      case None => KingFrom(g, colour, row + 1)
  }

  /** findKing: the first king of `colour` in row-major order, or `None` (the function falls off its end). */
  function KingSquare(g: Rows, colour: Colour): (k: Option<(int, int)>)
    requires Square8(g)
    ensures k.Some? ==> InBoard(k.value.0, k.value.1) && IsKingOf(g[k.value.0][k.value.1], colour)
    ensures k.None? <==> forall i, j :: InBoard(i, j) ==> !IsKingOf(g[i][j], colour)
  {
    KingFrom(g, colour, 0)
  }

  method FindKing(board: Grid, colour: Colour) returns (king: Option<(int, int)>)
    requires Square8(board.cells)
    ensures king == KingSquare(board.cells, colour)
  {
    for row := 0 to 8
      invariant KingFrom(board.cells, colour, row) == KingSquare(board.cells, colour)
    {
      var col := KingIndex(board.cells[row], colour, 0);
      if col.Some? {
        return Some((row, col.value));
      }
    }
    return None;
  }

  // ---------------------------------------------------------------------------
  // isInCheck

  /** A knight of the other colour stands `d` away from the king. */
  predicate KnightHit(g: Rows, kr: int, kc: int, d: Offset)
    requires Square8(g) && InBoard(kr, kc) && g[kr][kc].Some?
  {
    var r, c := kr + d.0, kc + d.1;
    InBoard(r, c) && g[r][c].Some? && g[r][c].value.kind == Knight && g[r][c].value.colour != g[kr][kc].value.colour
  }

  /** A piece of the other colour stands `d` away from the king and may legally move onto it. */
  predicate SliderHit(g: Rows, kr: int, kc: int, d: Offset)
    requires Square8(g) && InBoard(kr, kc) && g[kr][kc].Some?
  {
    var r, c := kr + d.0, kc + d.1;
    InBoard(r, c) && g[r][c].Some? && g[r][c].value.colour != g[kr][kc].value.colour && LegalMove(g, r, c, kr, kc)
  }

  predicate KnightChecks(g: Rows, kr: int, kc: int, offsets: seq<Offset>)
    requires Square8(g) && InBoard(kr, kc) && g[kr][kc].Some?
    decreases |offsets|
  {
    offsets != [] && (KnightHit(g, kr, kc, offsets[0]) || KnightChecks(g, kr, kc, offsets[1..]))
  }

  predicate SliderChecks(g: Rows, kr: int, kc: int, offsets: seq<Offset>)
    requires Square8(g) && InBoard(kr, kc) && g[kr][kc].Some?
    decreases |offsets|
  {
    offsets != [] && (SliderHit(g, kr, kc, offsets[0]) || SliderChecks(g, kr, kc, offsets[1..]))
  }

  /** isInCheck: a knight at a knight offset, or a piece at a queen offset that may legally take the king. */
  predicate InCheck(g: Rows, kr: int, kc: int)
    requires Square8(g) && InBoard(kr, kc) && g[kr][kc].Some?
  {
    KnightChecks(g, kr, kc, KnightOffsets()) || SliderChecks(g, kr, kc, QueenOffsets())
  }

  method IsInCheck(board: Grid, kingRow: int, kingCol: int) returns (inCheck: bool)
    requires Square8(board.cells) && InBoard(kingRow, kingCol) && board.cells[kingRow][kingCol].Some?
    ensures inCheck == InCheck(board.cells, kingRow, kingCol)
  {
    inCheck := ScanKnights(board, kingRow, kingCol, KnightOffsets());
    if !inCheck {
      inCheck := ScanSliders(board, kingRow, kingCol, QueenOffsets());
    }
  }

  /** isInCheck's first loop, over the knight table `knightMoves`. */
  method ScanKnights(board: Grid, kingRow: int, kingCol: int, knightMoves: seq<Offset>) returns (found: bool)
    requires Square8(board.cells) && InBoard(kingRow, kingCol) && board.cells[kingRow][kingCol].Some?
    ensures found == KnightChecks(board.cells, kingRow, kingCol, knightMoves)
  {
    var g: Rows := board.cells;
    for i := 0 to |knightMoves|
      invariant KnightChecks(g, kingRow, kingCol, knightMoves) == KnightChecks(g, kingRow, kingCol, knightMoves[i..])
    {
      var (drow, dcol) := knightMoves[i];
      var checkRow, checkCol := kingRow + drow, kingCol + dcol;
      assert knightMoves[i..][1..] == knightMoves[i + 1..];
      if InBoard(checkRow, checkCol) && g[checkRow][checkCol] != None && g[checkRow][checkCol].value.kind == Knight
        && g[checkRow][checkCol].value.colour != g[kingRow][kingCol].value.colour {
        return true;
      }
    }
    return false;
  }

  /** isInCheck's second loop, over the queen table `queenMoves`, asking each enemy piece whether it may take the king. */
  method ScanSliders(board: Grid, kingRow: int, kingCol: int, queenMoves: seq<Offset>) returns (found: bool)
    requires Square8(board.cells) && InBoard(kingRow, kingCol) && board.cells[kingRow][kingCol].Some?
    ensures found == SliderChecks(board.cells, kingRow, kingCol, queenMoves)
  {
    var g: Rows := board.cells;
    for i := 0 to |queenMoves|
      invariant SliderChecks(g, kingRow, kingCol, queenMoves) == SliderChecks(g, kingRow, kingCol, queenMoves[i..])
    {
      var (drow, dcol) := queenMoves[i];
      var checkRow, checkCol := kingRow + drow, kingCol + dcol;
      assert queenMoves[i..][1..] == queenMoves[i + 1..];
      if InBoard(checkRow, checkCol) && g[checkRow][checkCol] != None
        && g[checkRow][checkCol].value.colour != g[kingRow][kingCol].value.colour {
        var legal := IsLegalMove(board, checkRow, checkCol, kingRow, kingCol);
        if legal {
          return true;
        }
      }
    }
    return false;
  }

  // ---------------------------------------------------------------------------
  // tryMove

  /**
   * tryMove: `Some(false)` for an illegal move; otherwise the move is made and
   * `Some(b)` says whether the mover's king is then out of check. `None` is the
   * TypeError the engine raises when findKing finds no king of the mover's colour.
   */
  function TryMoveOutcome(g: Rows, r: int, c: int, nr: int, nc: int): Option<bool>
    requires Square8(g) && InBoard(r, c) && InBoard(nr, nc) && g[r][c].Some?
  {
    if !LegalMove(g, r, c, nr, nc) then Some(false)
    else
      var m := Moved(g, r, c, nr, nc);
      match KingSquare(m, g[r][c].value.colour)
      case None => None
      case Some(k) => Some(!InCheck(m, k.0, k.1))
  }

  method TryMove(board: Grid, row: int, col: int, nextRow: int, nextCol: int) returns (ok: Option<bool>)
    requires Square8(board.cells) && InBoard(row, col) && InBoard(nextRow, nextCol) && board.cells[row][col].Some?
    modifies board
    ensures ok == TryMoveOutcome(old(board.cells), row, col, nextRow, nextCol)
    ensures ok.Some? ==> board.cells == old(board.cells)
  {
    ghost var g := board.cells;
    var playerColour := board.cells[row][col].value.colour;
    var legal := IsLegalMove(board, row, col, nextRow, nextCol);
    if !legal {
      return Some(false);
    }
    var temp := board.cells[nextRow][nextCol];
    board.cells := Put(board.cells, nextRow, nextCol, board.cells[row][col]);
    board.cells := Put(board.cells, row, col, None);
    assert board.cells == Moved(g, row, col, nextRow, nextCol);
    var king := FindKing(board, playerColour);
    if king.None? {
      return None;
    }
    var inCheck := IsInCheck(board, king.value.0, king.value.1);
    board.cells := Put(board.cells, row, col, board.cells[nextRow][nextCol]);
    board.cells := Put(board.cells, nextRow, nextCol, temp);
    UndoRestores(g, row, col, nextRow, nextCol);
    return Some(!inCheck);
  }

  // ---------------------------------------------------------------------------
  // What the rules mean

  /** The piece on (r, c) belongs to the other side from the king on (kr, kc) and may legally take it. */
  ghost predicate Attacks(g: Rows, r: int, c: int, kr: int, kc: int)
    requires Square8(g) && InBoard(kr, kc) && g[kr][kc].Some?
  {
    InBoard(r, c) && g[r][c].Some? && g[r][c].value.colour != g[kr][kc].value.colour && LegalMove(g, r, c, kr, kc)
  }

  lemma {:induction false} KnightChecksExact(g: Rows, kr: int, kc: int, offsets: seq<Offset>)
    requires Square8(g) && InBoard(kr, kc) && g[kr][kc].Some?
    ensures KnightChecks(g, kr, kc, offsets) <==> exists d :: d in offsets && KnightHit(g, kr, kc, d)
    decreases |offsets|
  {
    if offsets != [] {
      KnightChecksExact(g, kr, kc, offsets[1..]);
      assert forall d :: d in offsets <==> d == offsets[0] || d in offsets[1..];
    }
  }

  lemma {:induction false} SliderChecksExact(g: Rows, kr: int, kc: int, offsets: seq<Offset>)
    requires Square8(g) && InBoard(kr, kc) && g[kr][kc].Some?
    ensures SliderChecks(g, kr, kc, offsets) <==> exists d :: d in offsets && SliderHit(g, kr, kc, d)
    decreases |offsets|
  {
    if offsets != [] {
      SliderChecksExact(g, kr, kc, offsets[1..]);
      assert forall d :: d in offsets <==> d == offsets[0] || d in offsets[1..];
    }
  }

  /** An enemy knight a knight's jump away may take the king. */
  lemma KnightHitAttacks(g: Rows, kr: int, kc: int, d: Offset)
    requires Square8(g) && InBoard(kr, kc) && g[kr][kc].Some?
    requires d in KnightOffsets() && KnightHit(g, kr, kc, d)
    ensures Attacks(g, kr + d.0, kc + d.1, kr, kc)
  {
    KnightOffsetsAre(d);
    KnightOffsetsAre((-d.0, -d.1));
    assert MovePattern(g, kr + d.0, kc + d.1, kr, kc);
  }

  /** An attacking knight stands at an offset of the knight table. */
  lemma KnightAttacker(g: Rows, r: int, c: int, kr: int, kc: int)
    requires Square8(g) && InBoard(kr, kc) && g[kr][kc].Some?
    requires Attacks(g, r, c, kr, kc) && g[r][c].value.kind == Knight
    ensures (r - kr, c - kc) in KnightOffsets() && KnightHit(g, kr, kc, (r - kr, c - kc))
  {
    assert (kr - r, kc - c) in KnightOffsets();
    KnightOffsetsAre((kr - r, kc - c));
    KnightOffsetsAre((r - kr, c - kc));
  }

  /** Any other attacker stands at an offset of the queen table, and may take the king from there. */
  lemma SliderAttacker(g: Rows, r: int, c: int, kr: int, kc: int)
    requires Square8(g) && InBoard(kr, kc) && g[kr][kc].Some?
    requires Attacks(g, r, c, kr, kc) && g[r][c].value.kind != Knight
    ensures (r - kr, c - kc) in QueenOffsets() && SliderHit(g, kr, kc, (r - kr, c - kc))
  {
    PatternLine(g, r, c, kr, kc);
    QueenOffsetsAre((r - kr, c - kc));
  }

  /** isInCheck holds exactly when some enemy piece may legally move onto the king's square. */
  lemma InCheckExact(g: Rows, kr: int, kc: int)
    requires Square8(g) && InBoard(kr, kc) && g[kr][kc].Some?
    ensures InCheck(g, kr, kc) <==> exists r, c :: Attacks(g, r, c, kr, kc)
  {
    if InCheck(g, kr, kc) {
      InCheckHasAttacker(g, kr, kc);
    }
    if exists r, c :: Attacks(g, r, c, kr, kc) {
      var r, c :| Attacks(g, r, c, kr, kc);
      AttackerChecks(g, r, c, kr, kc);
    }
  }

  lemma InCheckHasAttacker(g: Rows, kr: int, kc: int)
    requires Square8(g) && InBoard(kr, kc) && g[kr][kc].Some?
    requires InCheck(g, kr, kc)
    ensures exists r, c :: Attacks(g, r, c, kr, kc)
  {
    if KnightChecks(g, kr, kc, KnightOffsets()) {
      KnightChecksExact(g, kr, kc, KnightOffsets());
      var d :| d in KnightOffsets() && KnightHit(g, kr, kc, d);
      KnightHitAttacks(g, kr, kc, d);
    } else {
      SliderChecksExact(g, kr, kc, QueenOffsets());
      var d :| d in QueenOffsets() && SliderHit(g, kr, kc, d);
      assert Attacks(g, kr + d.0, kc + d.1, kr, kc);
    }
  }

  lemma AttackerChecks(g: Rows, r: int, c: int, kr: int, kc: int)
    requires Square8(g) && InBoard(kr, kc) && g[kr][kc].Some?
    requires Attacks(g, r, c, kr, kc)
    ensures InCheck(g, kr, kc)
  {
    if g[r][c].value.kind == Knight {
      KnightAttacker(g, r, c, kr, kc);
      KnightChecksExact(g, kr, kc, KnightOffsets());
    } else {
      SliderAttacker(g, r, c, kr, kc);
      SliderChecksExact(g, kr, kc, QueenOffsets());
    }
  }

  /** Every piece but a knight moves only over empty squares. */
  lemma LegalPathEmpty(g: Rows, r: int, c: int, nr: int, nc: int, k: int)
    requires Square8(g) && InBoard(r, c) && InBoard(nr, nc) && g[r][c].Some?
    requires LegalMove(g, r, c, nr, nc) && g[r][c].value.kind != Knight
    requires 0 < k < Steps((nr - r, nc - c))
    ensures InBoard(Along(r, Sign(nr - r), k), Along(c, Sign(nc - c), k))
    ensures g[Along(r, Sign(nr - r), k)][Along(c, Sign(nc - c), k)].None?
  {
    PatternLine(g, r, c, nr, nc);
    LineReach((nr - r, nc - c));
    ClearFromExact(g, r, c, Sign(nr - r), Sign(nc - c), 1, Steps((nr - r, nc - c)));
  }

  /**
   * The pawn rules: one step forward onto an empty square, two steps forward
   * from an unmoved pawn over and onto empty squares, or one step diagonally
   * forward onto an enemy piece; nothing else.
   */
  lemma PawnLegal(g: Rows, r: int, c: int, nr: int, nc: int)
    requires Square8(g) && InBoard(r, c) && InBoard(nr, nc) && g[r][c].Some? && g[r][c].value.kind == Pawn
    ensures var p, f, d := g[r][c].value, Forward(g[r][c].value.colour), (nr - r, nc - c);
      LegalMove(g, r, c, nr, nc) <==>
        || (d == (f, 0) && g[nr][nc].None?)
        || (d == (2 * f, 0) && !p.hasMoved && g[nr][nc].None? && g[r + f][c].None?)
        || ((d == (f, 1) || d == (f, -1)) && g[nr][nc].Some? && g[nr][nc].value.colour != p.colour)
  {
  }

  /**
   * Castling as isLegalMove sees it: an unmoved king may step two squares
   * along its row when the rook-class piece in that corner is unmoved, the
   * square passed over is empty and the destination holds no piece of its own
   * colour. Neither the rook's colour nor the other squares next to the rook
   * are looked at.
   */
  lemma KingTwoSteps(g: Rows, r: int, c: int, nc: int)
    requires Square8(g) && InBoard(r, c) && InBoard(r, nc) && g[r][c].Some? && g[r][c].value.kind == King
    requires nc == c + 2 || nc == c - 2
    ensures var p := g[r][c].value;
      LegalMove(g, r, c, r, nc) <==>
        && !p.hasMoved
        && UnmovedRook(g[r][if nc > c then 7 else 0])
        && g[r][if nc > c then c + 1 else c - 1].None?
        && !(g[r][nc].Some? && g[r][nc].value.colour == p.colour)
  {
    var p := g[r][c].value;
    var d, u := (0, nc - c), if nc > c then 1 else -1;
    KingOffsetsAre(d);
    assert d !in Moves(p);
    assert MovePattern(g, r, c, r, nc) <==> !p.hasMoved && UnmovedRook(g[r][if nc > c then 7 else 0]);
    if MovePattern(g, r, c, r, nc) {
      assert IsLine(d) && Steps(d) == 2 && Sign(0) == 0 && Sign(nc - c) == u;
      assert PathClear(g, r, c, r, nc) == ClearFrom(g, r, c, 0, u, 1, 2);
      assert ClearFrom(g, r, c, 0, u, 1, 2) <==> g[r][c + u].None?;
    }
  }

  /** The mover's king is on the board and no enemy piece may legally take it. */
  ghost predicate KingSafe(m: Rows, colour: Colour)
    requires Square8(m)
  {
    match KingSquare(m, colour)
    case None => false
    case Some(k) => !exists r, c :: Attacks(m, r, c, k.0, k.1)
  }

  /** tryMove answers True exactly for a legal move after which the mover's king cannot be taken. */
  lemma TryMoveExact(g: Rows, r: int, c: int, nr: int, nc: int)
    requires Square8(g) && InBoard(r, c) && InBoard(nr, nc) && g[r][c].Some?
    ensures TryMoveOutcome(g, r, c, nr, nc) == Some(true) <==>
      LegalMove(g, r, c, nr, nc) && KingSafe(Moved(g, r, c, nr, nc), g[r][c].value.colour)
  {
    if LegalMove(g, r, c, nr, nc) {
      var m := Moved(g, r, c, nr, nc);
      MovedSquares(g, r, c, nr, nc);
      var k := KingSquare(m, g[r][c].value.colour);
      if k.Some? {
        InCheckExact(m, k.value.0, k.value.1);
      }
    }
  }

  /** tryMove raises exactly when the move is legal and the mover has no king on the board. */
  lemma TryMoveRaises(g: Rows, r: int, c: int, nr: int, nc: int)
    requires Square8(g) && InBoard(r, c) && InBoard(nr, nc) && g[r][c].Some?
    ensures TryMoveOutcome(g, r, c, nr, nc) == None <==>
      LegalMove(g, r, c, nr, nc) && forall i, j :: InBoard(i, j) ==> !IsKingOf(g[i][j], g[r][c].value.colour)
  {
    if LegalMove(g, r, c, nr, nc) {
      KingsSurviveMove(g, r, c, nr, nc);
    }
  }

  /** A legal move keeps a king of the mover's colour on the board exactly when there was one. */
  lemma KingsSurviveMove(g: Rows, r: int, c: int, nr: int, nc: int)
    requires Square8(g) && InBoard(r, c) && InBoard(nr, nc) && g[r][c].Some?
    requires LegalMove(g, r, c, nr, nc)
    ensures var colour, m := g[r][c].value.colour, Moved(g, r, c, nr, nc);
      (exists i, j :: InBoard(i, j) && IsKingOf(m[i][j], colour)) <==>
      (exists i, j :: InBoard(i, j) && IsKingOf(g[i][j], colour))
  {
    var colour, m := g[r][c].value.colour, Moved(g, r, c, nr, nc);
    MovedSquares(g, r, c, nr, nc);
    if exists i, j :: InBoard(i, j) && IsKingOf(g[i][j], colour) {
      var i, j :| InBoard(i, j) && IsKingOf(g[i][j], colour);
      if i == r && j == c {
        assert IsKingOf(m[nr][nc], colour);
      } else {
        assert IsKingOf(m[i][j], colour);
      }
    }
    if exists i, j :: InBoard(i, j) && IsKingOf(m[i][j], colour) {
      var i, j :| InBoard(i, j) && IsKingOf(m[i][j], colour);
      if i == nr && j == nc {
        assert IsKingOf(g[r][c], colour);
      } else {
        assert IsKingOf(g[i][j], colour);
      }
    }
  }
}