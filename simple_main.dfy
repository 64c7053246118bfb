/**
 * The command-line front end of the Python engine
 * (lichess_bot_Python/engines/simple_main.py): the starting position, FEN
 * parsing, the translation between engine coordinates and UCI move strings,
 * and moving a piece.
 */
module SimpleMain {
  import opened DataStructs
  import opened PyPieces
  import PySearch

  // ---------------------------------------------------------------------------
  // makeBoard

  /** The back rank from column 0 to column 7. */
  function BackRank(): seq<Kind> { [Rook, Knight, Bishop, Queen, King, Bishop, Knight, Rook] }

  /** What makeBoard puts on (r, c): black on rows 0 and 1, white on rows 6 and 7. */
  function StartCell(r: int, c: int): Cell
    requires InBoard(r, c)
  {
    if r == 0 then Some(NewPiece(BackRank()[c], Black))
    else if r == 1 then Some(NewPiece(Pawn, Black))
    else if r == 6 then Some(NewPiece(Pawn, White))
    else if r == 7 then Some(NewPiece(BackRank()[c], White))
    else None
  }

  /** Black fills rows 0 and 1 and white rows 6 and 7, pawns on rows 1 and 6; nothing has moved yet. */
  function StartBoard(): (g: Rows)
    ensures Square8(g)
    ensures forall r, c :: InBoard(r, c) ==> (g[r][c].Some? <==> r < 2 || r > 5)
    ensures forall r, c :: InBoard(r, c) && g[r][c].Some? ==>
      && g[r][c].value.colour == (if r < 2 then Black else White)
      && (g[r][c].value.kind == Pawn <==> r == 1 || r == 6)
      && !g[r][c].value.hasMoved
  {
    seq(8, r requires 0 <= r < 8 => seq(8, c requires 0 <= c < 8 => StartCell(r, c)))
  }

  /** `[[None] * 8 for row in range(8)]`. */
  function EmptyBoard(): (g: Rows)
    ensures Square8(g) && forall r, c :: InBoard(r, c) ==> g[r][c] == None
  {
    seq(8, r => seq(8, c => None))
  }

  /** The back ranks are written square by square, then the pawns column by column. */
  method MakeBoard() returns (board: Grid)
    ensures fresh(board) && board.cells == StartBoard()
  {
    board := new Grid(EmptyBoard());
    BackRanks(board);
    for col := 0 to 8
      invariant Square8(board.cells)
      invariant forall r, c :: InBoard(r, c) ==>
        board.cells[r][c] == if (r == 1 || r == 6) && c >= col then None else StartCell(r, c)
    {
      board.cells := Put(board.cells, 1, col, Some(NewPiece(Pawn, Black)));
      board.cells := Put(board.cells, 6, col, Some(NewPiece(Pawn, White)));
    }
    SameRows(board.cells, StartBoard());
  }

  /** Rows 0 and 7 of makeBoard: rooks, knights, bishops, queen and king of each side. */
  method BackRanks(board: Grid)
    requires Square8(board.cells) && forall r, c :: InBoard(r, c) ==> board.cells[r][c] == None
    modifies board
    ensures Square8(board.cells)
    ensures forall r, c :: InBoard(r, c) ==> board.cells[r][c] == if r == 1 || r == 6 then None else StartCell(r, c)
  {
    var cols := 8;
    board.cells := Put(Put(board.cells, 0, 0, Some(NewPiece(Rook, Black))), 0, cols - 1, Some(NewPiece(Rook, Black)));
    board.cells := Put(Put(board.cells, 0, 1, Some(NewPiece(Knight, Black))), 0, cols - 2, Some(NewPiece(Knight, Black)));
    board.cells := Put(Put(board.cells, 0, 2, Some(NewPiece(Bishop, Black))), 0, cols - 3, Some(NewPiece(Bishop, Black)));
    board.cells := Put(Put(board.cells, 0, 3, Some(NewPiece(Queen, Black))), 0, 4, Some(NewPiece(King, Black)));
    board.cells := Put(Put(board.cells, 7, 0, Some(NewPiece(Rook, White))), 7, cols - 1, Some(NewPiece(Rook, White)));
    board.cells := Put(Put(board.cells, 7, 1, Some(NewPiece(Knight, White))), 7, cols - 2, Some(NewPiece(Knight, White)));
    board.cells := Put(Put(board.cells, 7, 2, Some(NewPiece(Bishop, White))), 7, cols - 3, Some(NewPiece(Bishop, White)));
    board.cells := Put(Put(board.cells, 7, 3, Some(NewPiece(Queen, White))), 7, 4, Some(NewPiece(King, White)));
  }

  /**
   * The starting position: the pieces stand exactly on rows 0, 1, 6 and 7,
   * black on the first two and white on the last two, pawns on rows 1 and 6,
   * the queens on column 3 and the kings on column 4, and none has moved.
   */
  lemma StartBoardLayout(r: int, c: int)
    requires InBoard(r, c)
    ensures var x := StartBoard()[r][c];
      && (x.Some? <==> r == 0 || r == 1 || r == 6 || r == 7)
      && (x.Some? ==> (x.value.colour == Black <==> r <= 1) && !x.value.hasMoved)
      && (x.Some? ==> (x.value.kind == Pawn <==> r == 1 || r == 6))
      && (x.Some? ==> (x.value.kind == Queen <==> (r == 0 || r == 7) && c == 3))
      && (x.Some? ==> (x.value.kind == King <==> (r == 0 || r == 7) && c == 4))
  {
  }

  /** The number of pieces on a row. */
  function RowCount(row: seq<Cell>): nat
    decreases |row|
  {
    if row == [] then 0 else (if row[0].Some? then 1 else 0) + RowCount(row[1..])
  }

  /** The number of pieces on the board. */
  function PieceCount(g: Rows): nat
    decreases |g|
  {
    if g == [] then 0 else RowCount(g[0]) + PieceCount(g[1..])
  }

  lemma CountStep(row: seq<Cell>, k: int)
    requires 0 <= k < |row|
    ensures RowCount(row[k..]) == (if row[k].Some? then 1 else 0) + RowCount(row[k + 1..])
    ensures PySearch.RowPoints(row[k..]) == PySearch.CellPoints(row[k]) + PySearch.RowPoints(row[k + 1..])
  {
    assert row[k..][1..] == row[k + 1..];
  }

  lemma BoardStep(g: Rows, k: int)
    requires 0 <= k < |g|
    ensures PieceCount(g[k..]) == RowCount(g[k]) + PieceCount(g[k + 1..])
    ensures PySearch.Evaluation(g[k..]) == PySearch.RowPoints(g[k]) + PySearch.Evaluation(g[k + 1..])
  {
    assert g[k..][1..] == g[k + 1..];
  }

  /** The counts and points of a row of eight squares, square by square. */
  lemma RowUnrolled(row: seq<Cell>)
    requires |row| == 8
    ensures RowCount(row) == (if row[0].Some? then 1 else 0) + (if row[1].Some? then 1 else 0) + (if row[2].Some? then 1 else 0)
      + (if row[3].Some? then 1 else 0) + (if row[4].Some? then 1 else 0) + (if row[5].Some? then 1 else 0)
      + (if row[6].Some? then 1 else 0) + (if row[7].Some? then 1 else 0)
    ensures PySearch.RowPoints(row) == PySearch.CellPoints(row[0]) + PySearch.CellPoints(row[1]) + PySearch.CellPoints(row[2])
      + PySearch.CellPoints(row[3]) + PySearch.CellPoints(row[4]) + PySearch.CellPoints(row[5])
      + PySearch.CellPoints(row[6]) + PySearch.CellPoints(row[7])
  {
    assert row[0..] == row;
    assert row[8..] == [];
    CountStep(row, 0); CountStep(row, 1); CountStep(row, 2); CountStep(row, 3);
    CountStep(row, 4); CountStep(row, 5); CountStep(row, 6); CountStep(row, 7);
  }

  /** The counts and points of a board of eight rows, row by row. */
  lemma BoardUnrolled(g: Rows)
    requires |g| == 8
    ensures PieceCount(g) == RowCount(g[0]) + RowCount(g[1]) + RowCount(g[2]) + RowCount(g[3])
      + RowCount(g[4]) + RowCount(g[5]) + RowCount(g[6]) + RowCount(g[7])
    ensures PySearch.Evaluation(g) == PySearch.RowPoints(g[0]) + PySearch.RowPoints(g[1]) + PySearch.RowPoints(g[2])
      + PySearch.RowPoints(g[3]) + PySearch.RowPoints(g[4]) + PySearch.RowPoints(g[5])
      + PySearch.RowPoints(g[6]) + PySearch.RowPoints(g[7])
  {
    assert g[0..] == g;
    assert g[8..] == [];
    BoardStep(g, 0); BoardStep(g, 1); BoardStep(g, 2); BoardStep(g, 3);
    BoardStep(g, 4); BoardStep(g, 5); BoardStep(g, 6); BoardStep(g, 7);
  }

  /** Each row of makeBoard: eight pieces on rows 0, 1, 6 and 7, worth 1210 on a back rank and 80 in pawns. */
  lemma StartRow(r: int)
    requires 0 <= r < 8
    ensures RowCount(StartBoard()[r]) == if r == 0 || r == 1 || r == 6 || r == 7 then 8 else 0
    ensures PySearch.RowPoints(StartBoard()[r]) ==
      if r == 0 then -1210 else if r == 1 then -80 else if r == 6 then 80 else if r == 7 then 1210 else 0
  {
    RowUnrolled(StartBoard()[r]);
  }

  /** makeBoard places 32 pieces, and the material of the two sides balances. */
  lemma StartBoardBalanced()
    ensures PieceCount(StartBoard()) == 32
    ensures PySearch.Evaluation(StartBoard()) == 0
  {
    BoardUnrolled(StartBoard());
    StartRow(0); StartRow(1); StartRow(2); StartRow(3);
    StartRow(4); StartRow(5); StartRow(6); StartRow(7);
  }

  // ---------------------------------------------------------------------------
  // getRow / getCol

  /** `index // 8`: Python's floor division. */
  function GetRow(index: int): (row: int)
    ensures 8 * row <= index < 8 * row + 8
  {
    index / 8
  }

  /** `index % 8`: Python's floor remainder, which is never negative for 8. */
  function GetCol(index: int): (col: int)
    ensures 0 <= col < 8 && index == 8 * GetRow(index) + col
  {
    index % 8
  }

  /** Square indices 0..63 and board squares correspond one to one. */
  lemma IndexSquare(index: int, r: int, c: int)
    requires 0 <= index < 64 && InBoard(r, c)
    ensures InBoard(GetRow(index), GetCol(index))
    ensures GetRow(index) == r && GetCol(index) == c <==> index == 8 * r + c
  {
  }

  // ---------------------------------------------------------------------------
  // makeBoardFromFen

  /** `fen_to_Pieces`: lower case for black, upper case for white; `None` is a KeyError. */
  function FenPiece(ch: char): (p: Option<Piece>)
    ensures p.Some? ==> !p.value.hasMoved
  {
    match ch
    case 'r' => Some(NewPiece(Rook, Black))
    case 'n' => Some(NewPiece(Knight, Black))
    case 'b' => Some(NewPiece(Bishop, Black))
    case 'q' => Some(NewPiece(Queen, Black))
    case 'k' => Some(NewPiece(King, Black))
    case 'p' => Some(NewPiece(Pawn, Black))
    case 'R' => Some(NewPiece(Rook, White))
    case 'N' => Some(NewPiece(Knight, White))
    case 'B' => Some(NewPiece(Bishop, White))
    case 'Q' => Some(NewPiece(Queen, White))
    case 'K' => Some(NewPiece(King, White))
    case 'P' => Some(NewPiece(Pawn, White))
    case _ => None
  }

  /** The letters whose piece is marked as moved when placed on `row`: kings, and pawns off their start row. */
  predicate Marks(ch: char, row: int)
  {
    ch == 'k' || ch == 'K' || (ch == 'p' && row != 1) || (ch == 'P' && row != 6)
  }

  /** `fen.split(' ')[0]`: the text before the first space. */
  function FirstField(s: string): (f: string)
    ensures ' ' !in f && f <= s
    decreases |s|
  {
    if s == [] || s[0] == ' ' then [] else [s[0]] + FirstField(s[1..])
  }

  /** The text after the first space, if there is one. */
  function AfterSpace(s: string): (rest: Option<string>)
    ensures rest.Some? <==> ' ' in s
    decreases |s|
  {
    if s == [] then None
    else if s[0] == ' ' then Some(s[1..])
    else AfterSpace(s[1..])
  }

  /** `fen.split(' ')[1]`: the text between the first and the second space; `None` is an IndexError. */
  function SecondField(s: string): (f: Option<string>)
    ensures f.Some? <==> ' ' in s
  {
    match AfterSpace(s)
    case None => None
    case Some(rest) => Some(FirstField(rest))
  }

  /** The fields split at the first space: the whole string when there is none. */
  lemma {:induction false} SplitAtSpace(s: string)
    ensures AfterSpace(s).None? ==> FirstField(s) == s
    ensures AfterSpace(s).Some? ==> s == FirstField(s) + " " + AfterSpace(s).value
    decreases |s|
  {
    if s != [] && s[0] != ' ' {
      SplitAtSpace(s[1..]);
      assert s == [s[0]] + s[1..];
    }
  }

  /** The parser's state: the board so far and `board_index`. */
  datatype FenState = FenState(board: Rows, index: nat)

  /** One character of the placement field, as the body of the loop treats it. */
  function FenStep(st: FenState, ch: char): (r: Option<FenState>)
    requires Square8(st.board)
    ensures r.Some? ==> Square8(r.value.board)
  {
    if ch == '/' then Some(st)
    else if DigitValue(ch).Some? then Some(st.(index := st.index + DigitValue(ch).value))
    else if FenPiece(ch).None? || st.index >= 64 then None
    else
      var row, col := GetRow(st.index), GetCol(st.index);
      var piece := FenPiece(ch).value;
      Some(FenState(Put(st.board, row, col, Some(piece.(hasMoved := Marks(ch, row)))), st.index + 1))
  }

  /** The loop over the placement field. */
  function FenScan(s: string, st: FenState): (r: Option<FenState>)
    requires Square8(st.board)
    ensures r.Some? ==> Square8(r.value.board)
    decreases |s|
  {
    if s == [] then Some(st)
    else
      match FenStep(st, s[0])
      case None => None
      case Some(next) => FenScan(s[1..], next)
  }

  /**
   * makeBoardFromFen with each square's piece its own value: the board and the
   * side-to-move field. `None` is an exception: an unknown letter, a piece
   * beyond the 64th square, a placement that does not cover exactly 64
   * squares, or no side-to-move field.
   */
  function FromFen(fen: string): (r: Option<(Rows, string)>)
    ensures r.Some? ==> Square8(r.value.0) && SecondField(fen) == Some(r.value.1)
    ensures r.Some? ==> ValidFen(FirstField(fen)) && |Expand(FirstField(fen))| == 64
  {
    FenScanIndex(FirstField(fen), FenState(EmptyBoard(), 0));
    match FenScan(FirstField(fen), FenState(EmptyBoard(), 0))
    case None => None
    case Some(st) =>
      if st.index != 64 then None
      else
        match SecondField(fen)
        case None => None
        case Some(side) => Some((st.board, side))
  }

  method MakeBoardFromFen(fen: string) returns (result: Option<(Rows, string)>)
    ensures result == FromFen(fen)
  {
    var board := EmptyBoard();
    var field := FirstField(fen);
    var boardIndex: nat := 0;
    for i := 0 to |field|
      invariant Square8(board)
      invariant FenScan(field[i..], FenState(board, boardIndex)) == FenScan(field, FenState(EmptyBoard(), 0))
    {
      assert field[i..][0] == field[i] && field[i..][1..] == field[i + 1..];
      var next := ReadFenChar(board, boardIndex, field[i]);
      if next.None? {
        return None;
      }
      board, boardIndex := next.value.board, next.value.index;
    }
    if boardIndex != 64 {
      return None;
    }
    var side := SecondField(fen);
    if side.None? {
      return None;
    }
    return Some((board, side.value));
  }

  /** The body of makeBoardFromFen's loop: skip '/', advance over a digit, or place a piece; `None` is the KeyError or IndexError. */
  method ReadFenChar(board: Rows, boardIndex: nat, fenChar: char) returns (next: Option<FenState>)
    requires Square8(board)
    ensures next == FenStep(FenState(board, boardIndex), fenChar)
  {
    if fenChar == '/' {
      return Some(FenState(board, boardIndex));
    } else if DigitValue(fenChar).Some? {
      return Some(FenState(board, boardIndex + DigitValue(fenChar).value));
    }
    if FenPiece(fenChar).None? || boardIndex >= 64 {
      return None;
    }
    var row, col := GetRow(boardIndex), GetCol(boardIndex);
    var cells: Rows := Put(board, row, col, FenPiece(fenChar));
    if Marks(fenChar, row) {
      cells := Put(cells, row, col, Some(cells[row][col].value.(hasMoved := true)));
    }
    SameRows(cells, Put(board, row, col, Some(FenPiece(fenChar).value.(hasMoved := Marks(fenChar, row)))));
    return Some(FenState(cells, boardIndex + 1));
  }

  /** The squares a placement field describes, in board order: a digit stands for that many empty squares. */
  function Expand(s: string): seq<Option<char>>
    decreases |s|
  {
    if s == [] then [] else Token(s[0]) + Expand(s[1..])
  }

  /** The squares one character of a placement field stands for. */
  function Token(ch: char): seq<Option<char>>
  {
    if ch == '/' then []
    else if DigitValue(ch).Some? then seq(DigitValue(ch).value, _ => None)
    else [Some(ch)]
  }

  /** Every character is a '/', a digit or a piece letter. */
  predicate ValidFen(s: string)
    decreases |s|
  {
    s == [] || ((s[0] == '/' || DigitValue(s[0]).Some? || FenPiece(s[0]).Some?) && ValidFen(s[1..]))
  }

  /** The piece a letter puts on a square of `row`, marked as moved as the loop marks it. */
  function Decoded(x: Option<char>, row: int): Cell
  {
    match x
    case None => None
    case Some(ch) =>
      match FenPiece(ch)
      case None => None
      case Some(p) => Some(p.(hasMoved := Marks(ch, row)))
  }

  function CellAt(g: Rows, index: int): Cell
    requires Square8(g) && 0 <= index < 64
  {
    g[GetRow(index)][GetCol(index)]
  }

  /** The state has read the squares `done`: they are on the board, and the rest is still empty. */
  predicate Agrees(st: FenState, done: seq<Option<char>>)
  {
    && Square8(st.board) && st.index == |done| <= 64
    && forall j :: 0 <= j < 64 ==> CellAt(st.board, j) == if j < |done| then Decoded(done[j], GetRow(j)) else None
  }

  /** The loop advances `board_index` by the number of squares it reads, and fails on any other character. */
  lemma {:induction false} FenScanIndex(s: string, st: FenState)
    requires Square8(st.board)
    ensures FenScan(s, st).Some? ==> ValidFen(s) && FenScan(s, st).value.index == st.index + |Expand(s)|
    decreases |s|
  {
    if s != [] {
      var next := FenStep(st, s[0]);
      if next.Some? {
        FenScanIndex(s[1..], next.value);
      }
    }
  }

  /** A valid field whose squares fit on the board is read to the end. */
  lemma {:induction false} FenScanCovers(s: string, st: FenState)
    requires Square8(st.board) && ValidFen(s) && st.index + |Expand(s)| <= 64
    ensures FenScan(s, st).Some?
    decreases |s|
  {
    if s != [] {
      FenScanCovers(s[1..], FenStep(st, s[0]).value);
    }
  }

  /** Writing square `index` changes that square of the board only. */
  lemma PutAt(g: Rows, index: int, x: Cell)
    requires Square8(g) && 0 <= index < 64
    ensures forall j :: 0 <= j < 64 ==> CellAt(Put(g, GetRow(index), GetCol(index), x), j) == if j == index then x else CellAt(g, j)
  {
    forall j | 0 <= j < 64
      ensures CellAt(Put(g, GetRow(index), GetCol(index), x), j) == if j == index then x else CellAt(g, j)
    {
      IndexSquare(j, GetRow(index), GetCol(index));
      IndexSquare(index, GetRow(index), GetCol(index));
    }
  }

  lemma Associative<T>(a: seq<T>, b: seq<T>, c: seq<T>)
    ensures a + b + c == a + (b + c)
  {
  }

  /** One character read within the board keeps the state in step with the squares read. */
  lemma StepAgrees(st: FenState, done: seq<Option<char>>, ch: char)
    requires Agrees(st, done) && FenStep(st, ch).Some? && FenStep(st, ch).value.index <= 64
    ensures Agrees(FenStep(st, ch).value, done + Token(ch))
  {
    if ch != '/' && DigitValue(ch).None? {
      PutAt(st.board, st.index, Decoded(Some(ch), GetRow(st.index)));
    }
  }

  /** A scan that ends on square 64 puts every square of the field where the field says. */
  lemma {:induction false} FenScanAgrees(s: string, st: FenState, done: seq<Option<char>>)
    requires Square8(st.board) && Agrees(st, done) && FenScan(s, st).Some? && FenScan(s, st).value.index == 64
    ensures Agrees(FenScan(s, st).value, done + Expand(s))
    decreases |s|
  {
    hide Agrees, FenStep;
    if s == [] {
      assert done + Expand(s) == done;
    } else {
      var next := FenStep(st, s[0]).value;
      FenScanIndex(s[1..], next);
      StepAgrees(st, done, s[0]);
      FenScanAgrees(s[1..], next, done + Token(s[0]));
      assert Expand(s) == Token(s[0]) + Expand(s[1..]);
      Associative(done, Token(s[0]), Expand(s[1..]));
    }
  }

  /**
   * makeBoardFromFen succeeds exactly on a placement field of '/', digits and
   * piece letters that covers 64 squares, followed by a side-to-move field.
   */
  lemma FromFenSucceeds(fen: string)
    ensures var field := FirstField(fen);
      FromFen(fen).Some? <==> ValidFen(field) && |Expand(field)| == 64 && ' ' in fen
  {
    hide FenScan, FenStep, Expand, ValidFen;
    var field := FirstField(fen);
    var start := FenState(EmptyBoard(), 0);
    FenScanIndex(field, start);
    if ValidFen(field) && |Expand(field)| == 64 {
      FenScanCovers(field, start);
    }
  }

  /**
   * A board read from FEN has on each square what the placement field says,
   * and the side to move is the second field.
   */
  lemma FromFenBoard(fen: string)
    requires FromFen(fen).Some?
    ensures FromFen(fen).value.1 == SecondField(fen).value
    ensures |Expand(FirstField(fen))| == 64
    ensures forall r, c :: InBoard(r, c) ==> FromFen(fen).value.0[r][c] == Decoded(Expand(FirstField(fen))[8 * r + c], r)
  {
    hide FenScan, FenStep, Expand, ValidFen;
    var field := FirstField(fen);
    var start := FenState(EmptyBoard(), 0);
    assert Agrees(start, []);
    FenScanAgrees(field, start, []);
    var b := FenScan(field, start).value.board;
    forall r, c | InBoard(r, c) ensures b[r][c] == Decoded(Expand(field)[8 * r + c], r) {
      IndexSquare(8 * r + c, r, c);
    }
  }

  /** The start row of the pawns of `colour`. */
  function PawnRow(colour: Colour): int { if colour == White then 6 else 1 }

  /**
   * A board read from FEN marks every king as moved, every pawn off its start
   * row as moved, and no other piece.
   */
  lemma FenMarksMoved(fen: string, r: int, c: int)
    requires FromFen(fen).Some? && InBoard(r, c) && FromFen(fen).value.0[r][c].Some?
    ensures var p := FromFen(fen).value.0[r][c].value;
      p.hasMoved <==> p.kind == King || (p.kind == Pawn && r != PawnRow(p.colour))
  {
    hide FenScan, FenStep, ValidFen, FirstField, SecondField;
    FromFenBoard(fen);
  }

  /**
   * `fen_to_Pieces` holds one piece object per letter, and every square of that
   * letter refers to it: setting `hasMoved` on one square sets it on all of
   * them. The flag of a letter's object, once the whole field is read.
   */
  predicate SharedMark(cells: seq<Option<char>>, ch: char)
  {
    exists j :: 0 <= j < |cells| && cells[j] == Some(ch) && Marks(ch, j / 8)
  }

  function SharedDecoded(cells: seq<Option<char>>, x: Option<char>): Cell
  {
    match x
    case None => None
    case Some(ch) =>
      match FenPiece(ch)
      case None => None
      case Some(p) => Some(p.(hasMoved := SharedMark(cells, ch)))
  }

  /**
   * makeBoardFromFen as written: the same squares, side and failures as
   * FromFen, but each square shows the flag of its letter's shared object.
   */
  function FromFenAsWritten(fen: string): (r: Option<(Rows, string)>)
    ensures r.Some? <==> FromFen(fen).Some?
    ensures r.Some? ==> Square8(r.value.0) && r.value.1 == FromFen(fen).value.1
    ensures r.Some? ==> forall row, c :: InBoard(row, c) ==> SamePiece(r.value.0[row][c], FromFen(fen).value.0[row][c])
  {
    var cells := Expand(FirstField(fen));
    match FromFen(fen)
    case None => None
    case Some(result) =>
      FromFenBoard(fen);
      if |cells| != 64 then None
      else
        var b := seq(8, r requires 0 <= r < 8 => seq(8, c requires 0 <= c < 8 => SharedDecoded(cells, cells[8 * r + c])));
        hide FenScan, FenStep, Expand, ValidFen, SharedDecoded, Decoded;
        forall row, c | InBoard(row, c) ensures SamePiece(b[row][c], result.0[row][c]) {
          SharedDecodedSame(cells, cells[8 * row + c], row);
        }
        Some((b, result.1))
  }

  /** Both squares are empty, or both hold a piece of the same kind and colour. */
  predicate SamePiece(x: Cell, y: Cell)
  {
    (x.Some? <==> y.Some?) && (x.Some? ==> x.value.kind == y.value.kind && x.value.colour == y.value.colour)
  }

  /** The shared flag changes nothing but the flag. */
  lemma SharedDecodedSame(cells: seq<Option<char>>, x: Option<char>, row: int)
    ensures SamePiece(SharedDecoded(cells, x), Decoded(x, row))
  {
  }

  /** Different letters stand for different pieces. */
  lemma FenPieceInjective(a: char, b: char)
    requires FenPiece(a).Some? && FenPiece(b).Some?
    requires FenPiece(a).value.kind == FenPiece(b).value.kind && FenPiece(a).value.colour == FenPiece(b).value.colour
    ensures a == b
  {
  }

  /** Read as written, all pieces of one kind and colour carry one and the same flag. */
  lemma SharedFlagsAgree(fen: string, r: int, c: int, r2: int, c2: int)
    requires FromFenAsWritten(fen).Some? && InBoard(r, c) && InBoard(r2, c2)
    requires var b := FromFenAsWritten(fen).value.0;
      b[r][c].Some? && b[r2][c2].Some? &&
      b[r][c].value.kind == b[r2][c2].value.kind && b[r][c].value.colour == b[r2][c2].value.colour
    ensures var b := FromFenAsWritten(fen).value.0; b[r][c].value.hasMoved == b[r2][c2].value.hasMoved
  {
    var cells := Expand(FirstField(fen));
    var b := FromFenAsWritten(fen).value.0;
    assert b[r][c] == SharedDecoded(cells, cells[8 * r + c]);
    assert b[r2][c2] == SharedDecoded(cells, cells[8 * r2 + c2]);
    FenPieceInjective(cells[8 * r + c].value, cells[8 * r2 + c2].value);
  }

  /** Expanding a field rank by rank is expanding it whole. */
  lemma {:induction false} ExpandAppend(a: string, b: string)
    ensures Expand(a + b) == Expand(a) + Expand(b)
    ensures ValidFen(a + b) <==> ValidFen(a) && ValidFen(b)
    decreases |a|
  {
    hide Token, DigitValue, FenPiece;
    if a != [] {
      assert (a + b)[1..] == a[1..] + b;
      ExpandAppend(a[1..], b);
    } else {
      assert a + b == b;
    }
  }

  lemma {:induction false} FirstFieldBeforeSpace(a: string, b: string)
    requires ' ' !in a
    ensures FirstField(a + " " + b) == a
    decreases |a|
  {
    if a != [] {
      assert (a + " " + b)[1..] == a[1..] + " " + b;
      FirstFieldBeforeSpace(a[1..], b);
    }
  }

  /** The placement field of the example below, square by square. */
  lemma ExampleField()
    ensures var cells := Expand("4k3/p7/p7/8/8/8/8/4K3");
      ValidFen("4k3/p7/p7/8/8/8/8/4K3") && |cells| == 64 && cells[8] == Some('p') && cells[16] == Some('p')
  {
    var top, pawns, empty, bottom := "4k3/", "p7/", "8/8/8/8/", "4K3";
    hide *;
    assert top + pawns + pawns + empty + bottom == "4k3/p7/p7/8/8/8/8/4K3";
    ExpandAppend(top, pawns);
    ExpandAppend(top + pawns, pawns);
    ExpandAppend(top + pawns + pawns, empty);
    ExpandAppend(top + pawns + pawns + empty, bottom);
    PawnRank();
    EmptyRanks();
    OuterRanks();
  }

  lemma PawnRank()
    ensures Expand("p7/") == [Some('p'), None, None, None, None, None, None, None] && ValidFen("p7/")
  {
  }

  lemma EmptyRanks()
    ensures |Expand("8/8/8/8/")| == 32 && ValidFen("8/8/8/8/")
  {
  }

  lemma OuterRanks()
    ensures |Expand("4k3/")| == 8 && ValidFen("4k3/") && |Expand("4K3")| == 8 && ValidFen("4K3")
  {
  }

  /**
   * A position with black pawns on a7 and a6: read as written, the a7 pawn on
   * its start row is marked as moved, because the a6 pawn marks the object both
   * squares share; read square by square, it is not.
   */
  lemma SharedPawnFlagAsWritten()
    ensures FromFen("4k3/p7/p7/8/8/8/8/4K3 w").Some?
    ensures FromFen("4k3/p7/p7/8/8/8/8/4K3 w").value.0[1][0] == Some(Piece(Pawn, Black, false))
    ensures FromFenAsWritten("4k3/p7/p7/8/8/8/8/4K3 w").Some?
    ensures FromFenAsWritten("4k3/p7/p7/8/8/8/8/4K3 w").value.0[1][0] == Some(Piece(Pawn, Black, true))
  {
    hide FenScan, FenStep, FirstField, Expand, ValidFen, SecondField;
    var fen, field := "4k3/p7/p7/8/8/8/8/4K3 w", "4k3/p7/p7/8/8/8/8/4K3";
    assert fen == field + " " + "w";
    assert fen[21] == ' ';
    FirstFieldBeforeSpace(field, "w");
    ExampleField();
    var cells := Expand(field);
    FromFenSucceeds(fen);
    FromFenBoard(fen);
    assert SharedMark(cells, 'p') by { assert Marks('p', 16 / 8); }
    assert FirstField(fen) == field;
    assert FromFenAsWritten(fen).value.0[1][0] == SharedDecoded(cells, cells[8 * 1 + 0]);
  }

  // ---------------------------------------------------------------------------
  // UCI strings

  /** `dict_engine_to_UCI`. */
  function FileLetter(col: int): char
    requires 0 <= col < 8
  {
    "abcdefgh"[col]
  }

  /** `dict_UCI_to_engine`; `None` is a KeyError. */
  function FileIndex(ch: char): (col: Option<int>)
    ensures col.Some? ==> 0 <= col.value < 8
  {
    if 'a' <= ch <= 'h' then Some(ch as int - 'a' as int) else None
  }

  /** The two dictionaries are inverse to each other. */
  lemma FileRoundTrip(col: int, ch: char)
    requires 0 <= col < 8
    ensures FileIndex(FileLetter(col)) == Some(col)
    ensures FileIndex(ch) == Some(col) <==> ch == FileLetter(col)
  {
  }

  /** `int(ch)` of one ASCII character; `None` is a ValueError. */
  function DigitValue(ch: char): (d: Option<int>)
    ensures d.Some? ==> 0 <= d.value <= 9
  {
    if '0' <= ch <= '9' then Some(ch as int - '0' as int) else None
  }

  /** `str(d)` for a one-digit number. */
  function DigitChar(d: int): char
    requires 0 <= d <= 9
  {
    (d + '0' as int) as char
  }

  lemma DigitRoundTrip(d: int, ch: char)
    requires 0 <= d <= 9
    ensures DigitValue(DigitChar(d)) == Some(d)
    ensures DigitValue(ch) == Some(d) <==> ch == DigitChar(d)
  {
  }

  /** `isinstance(board[row][col], Pawn)`. */
  predicate IsPawn(x: Cell) { x.Some? && x.value.kind == Pawn }

  /** A pawn of the board moving to row 0 or 7: the moves that carry a promotion letter. */
  predicate Promotes(g: Rows, row: int, col: int, newRow: int)
    requires Square8(g) && InBoard(row, col)
  {
    IsPawn(g[row][col]) && (newRow == 0 || newRow == 7)
  }

  /** A parsed move `(row, col, newRow, newCol, promotePiece)`. */
  type EngineMove = (int, int, int, int, Option<char>)

  /** translate_engine_to_UCI: the engine move is valid, so both squares are on the board. */
  function EngineToUci(g: Rows, row: int, col: int, newRow: int, newCol: int): (move: string)
    requires Square8(g) && InBoard(row, col) && InBoard(newRow, newCol)
    ensures |move| == 4 || |move| == 5
    ensures |move| == 5 <==> Promotes(g, row, col, newRow)
    ensures |move| == 5 ==> move[4] == 'q'
  {
    var squares := [FileLetter(col), DigitChar(8 - row), FileLetter(newCol), DigitChar(8 - newRow)];
    if Promotes(g, row, col, newRow) then squares + "q" else squares
  }

  /** What the UCI string says: the files and ranks of both squares, then 'q' exactly on a promotion. */
  lemma EngineToUciReads(g: Rows, row: int, col: int, newRow: int, newCol: int)
    requires Square8(g) && InBoard(row, col) && InBoard(newRow, newCol)
    ensures var move := EngineToUci(g, row, col, newRow, newCol);
      && |move| == (if Promotes(g, row, col, newRow) then 5 else 4)
      && FileIndex(move[0]) == Some(col) && DigitValue(move[1]) == Some(8 - row)
      && FileIndex(move[2]) == Some(newCol) && DigitValue(move[3]) == Some(8 - newRow)
      && (|move| == 5 ==> move[4] == 'q')
  {
    FileRoundTrip(col, 'a');
    FileRoundTrip(newCol, 'a');
    DigitRoundTrip(8 - row, '0');
    DigitRoundTrip(8 - newRow, '0');
  }

  /**
   * translate_UCI_to_engine. Every exception inside the `try` is caught and
   * gives `None`: a rank that is not a digit, an unknown file, `board[8]` for
   * rank '0', and `move[4]` of a four-character promotion. Rank '9' gives row
   * -1, which Python reads as the last row before the range test rejects it.
   */
  function UciToEngine(g: Rows, move: string): (r: Option<EngineMove>)
    requires Square8(g)
    ensures r.Some? ==> InBoard(r.value.0, r.value.1) && InBoard(r.value.2, r.value.3)
    ensures r.Some? ==> 4 <= |move| <= 5 && FileIndex(move[0]) == Some(r.value.1) && FileIndex(move[2]) == Some(r.value.3)
    ensures r.Some? ==> (r.value.4.Some? <==> Promotes(g, r.value.0, r.value.1, r.value.2))
    ensures r.Some? && r.value.4.Some? ==> |move| == 5 && r.value.4.value == move[4] && move[4] in "qrbn"
  {
    if !(4 <= |move| <= 5) then None
    else match (DigitValue(move[1]), FileIndex(move[0]), DigitValue(move[3]), FileIndex(move[2]))
      case (Some(rank), Some(col), Some(newRank), Some(newCol)) =>
        var row, newRow := 8 - rank, 8 - newRank;
        if row == 8 then None
        else
          var promotes := Promotes(g, if row < 0 then row + 8 else row, col, newRow);
          if promotes && |move| == 4 then None
          else
            var promotePiece := if promotes then Some(move[4]) else None;
            if 0 <= row < 8 && 0 <= newRow < 8 && (promotePiece.None? || promotePiece.value in "qrbn")
            then Some((row, col, newRow, newCol, promotePiece))
            else None
      case _ => None
  }

  /** The strings translate_UCI_to_engine accepts. */
  predicate UciAccepted(g: Rows, move: string)
    requires Square8(g)
  {
    && 4 <= |move| <= 5
    && FileIndex(move[0]).Some? && FileIndex(move[2]).Some?
    && '1' <= move[1] <= '8' && '1' <= move[3] <= '8'
    && (Promotes(g, 8 - DigitValue(move[1]).value, FileIndex(move[0]).value, 8 - DigitValue(move[3]).value)
        ==> |move| == 5 && move[4] in "qrbn")
  }

  /**
   * translate_UCI_to_engine succeeds exactly on two squares on the board, with
   * a promotion letter q, r, b or n when a pawn reaches row 0 or 7; it then
   * returns those squares and that letter, and ignores a fifth character
   * otherwise.
   */
  lemma UciToEngineExact(g: Rows, move: string)
    requires Square8(g)
    ensures UciToEngine(g, move).Some? <==> UciAccepted(g, move)
    ensures UciToEngine(g, move).Some? ==>
      var m := UciToEngine(g, move).value;
      && InBoard(m.0, m.1) && InBoard(m.2, m.3)
      && FileIndex(move[0]) == Some(m.1) && DigitValue(move[1]) == Some(8 - m.0)
      && FileIndex(move[2]) == Some(m.3) && DigitValue(move[3]) == Some(8 - m.2)
      && m.4 == (if Promotes(g, m.0, m.1, m.2) then Some(move[4]) else None)
  {
  }

  /** engine -> UCI -> engine gives the move back, with 'q' exactly on a promotion. */
  lemma EngineUciRoundTrip(g: Rows, row: int, col: int, newRow: int, newCol: int)
    requires Square8(g) && InBoard(row, col) && InBoard(newRow, newCol)
    ensures UciToEngine(g, EngineToUci(g, row, col, newRow, newCol)) ==
      Some((row, col, newRow, newCol, if Promotes(g, row, col, newRow) then Some('q') else None))
  {
    EngineToUciReads(g, row, col, newRow, newCol);
  }

  /**
   * UCI -> engine -> UCI gives back the four square characters; the fifth
   * character survives only as a queen promotion.
   */
  lemma UciEngineRoundTrip(g: Rows, move: string)
    requires Square8(g) && UciToEngine(g, move).Some?
    ensures var m := UciToEngine(g, move).value;
      EngineToUci(g, m.0, m.1, m.2, m.3) == move[..4] + (if m.4.Some? then "q" else "")
  {
    var m := UciToEngine(g, move).value;
    UciToEngineExact(g, move);
    EngineToUciReads(g, m.0, m.1, m.2, m.3);
    FileRoundTrip(m.1, move[0]);
    FileRoundTrip(m.3, move[2]);
    DigitRoundTrip(8 - m.0, move[1]);
    DigitRoundTrip(8 - m.2, move[3]);
  }

  // ---------------------------------------------------------------------------
  // movePiece

  /** `board[row][col] = board[previousRow][previousCol]; board[previousRow][previousCol] = None`. */
  method MovePiece(board: Grid, previousRow: int, previousCol: int, row: int, col: int)
    requires Square8(board.cells) && InBoard(previousRow, previousCol) && InBoard(row, col)
    modifies board
    ensures board.cells == Moved(old(board.cells), previousRow, previousCol, row, col)
  {
    board.cells := Put(board.cells, row, col, board.cells[previousRow][previousCol]);
    board.cells := Put(board.cells, previousRow, previousCol, None);
  }
}
