/**
 * The development tools of the bitboard engine
 * (lichess_bot_refactored/src/dev_tools.c): the vertical board flip, the
 * FEN reader that builds the fourteen boards of a position, the side-to-move
 * and castling fields of a FEN record, and square names.
 */
module FenTools {
  import opened DataStructs
  import opened BoardManipulations

  // ---------------------------------------------------------------------
  // _flipVertical: three swap stages exchange ranks 8, 16 and 32 bits apart.

  const K1: bv64 := 0x00FF00FF00FF00FF
  const K2: bv64 := 0x0000FFFF0000FFFF

  /** First stage: neighbouring ranks trade places. */
  function SwapRanks(x: bv64): bv64 {
    ((x >> 8) & K1) | ((x & K1) << 8)
  }

  /** Second stage: neighbouring pairs of ranks trade places. */
  function SwapPairs(x: bv64): bv64 {
    ((x >> 16) & K2) | ((x & K2) << 16)
  }

  /** Third stage: the two halves of the board trade places. */
  function SwapHalves(x: bv64): bv64 {
    (x >> 32) | (x << 32)
  }

  lemma SwapRanksAt(x: bv64, j: Square)
    ensures Bit(SwapRanks(x), j) <==> Bit(x, j ^ 8)
  {
  }

  lemma SwapPairsAt(x: bv64, j: Square)
    ensures Bit(SwapPairs(x), j) <==> Bit(x, j ^ 16)
  {
  }

  lemma SwapHalvesAt(x: bv64, j: Square)
    ensures Bit(SwapHalves(x), j) <==> Bit(x, j ^ 32)
  {
  }

  /** _flipVertical: rank 1 is exchanged with rank 8, rank 2 with rank 7, and so on. */
  function FlipVertical(x: bv64): (r: bv64)
    ensures forall j: Square :: Bit(r, j) <==> Bit(x, j ^ 56)
  {
    hide Bit, SwapRanks, SwapPairs, SwapHalves;
    forall j: Square ensures Bit(SwapHalves(SwapPairs(SwapRanks(x))), j) <==> Bit(x, j ^ 56) {
      ThreeSwapsAt(x, j);
    }
    SwapHalves(SwapPairs(SwapRanks(x)))
  }

  /** The three exchanges together take square `j`'s bit from square `j ^ 8 ^ 16 ^ 32`. */
  lemma ThreeSwapsAt(x: bv64, j: Square)
    ensures Bit(SwapHalves(SwapPairs(SwapRanks(x))), j) <==> Bit(x, j ^ 56)
  {
    var ranks := SwapRanks(x);
    var pairs := SwapPairs(ranks);
    hide Bit, SwapRanks, SwapPairs, SwapHalves;
    SwapHalvesAt(pairs, j);
    SwapPairsAt(ranks, j ^ 32);
    SwapRanksAt(x, j ^ 32 ^ 16);
    assert j ^ 32 ^ 16 ^ 8 == j ^ 56;
  }

  /** Square `j` of the flipped board holds what square `j ^ 56` holds before the flip. */
  lemma FlipVerticalAt(x: bv64, j: Square)
    ensures Bit(FlipVertical(x), j) <==> Bit(x, j ^ 56)
  {
  }

  /** `j ^ 56` is the square on the same file and the mirrored rank. */
  lemma MirrorSquare(j: Square)
    ensures FileOf(j ^ 56) == FileOf(j) && RankOf(j ^ 56) == 7 - RankOf(j)
  {
  }

  /** Flipping twice gives the board back. */
  lemma FlipVerticalInvolution(x: bv64)
    ensures FlipVertical(FlipVertical(x)) == x
  {
    forall j: Square
      ensures Bit(FlipVertical(FlipVertical(x)), j) <==> Bit(x, j)
    {
      FlipVerticalAt(FlipVertical(x), j);
      FlipVerticalAt(x, j ^ 56);
    }
    BitsDetermine(FlipVertical(FlipVertical(x)), x);
  }

  /** Two boards holding the same squares are equal. */
  lemma BitsDetermine(a: bv64, b: bv64)
    requires forall j: Square :: Bit(a, j) <==> Bit(b, j)
    ensures a == b
  {
    if a != b {
      var j := LowestExists(a ^ b);
      XorAt(a, b, j);
    }
  }

  // ---------------------------------------------------------------------
  // enumSquare_to_string: the algebraic name of a square.

  /** The two-character name of a square: its file letter then its rank digit. */
  function SquareName(sq: Square): (name: seq<char>)
    ensures |name| == 2 && 'a' <= name[0] <= 'h' && '1' <= name[1] <= '8'
  {
    [('a' as int + sq as int % 8) as char, ('1' as int + sq as int / 8) as char]
  }

  /** The square a two-character name denotes, if it names one. */
  function ParseSquare(name: seq<char>): (sq: Option<Square>)
    ensures sq.Some? <==> |name| == 2 && 'a' <= name[0] <= 'h' && '1' <= name[1] <= '8'
  {
    if |name| == 2 && 'a' <= name[0] <= 'h' && '1' <= name[1] <= '8' then
      Some((8 * (name[1] as int - '1' as int) + (name[0] as int - 'a' as int)) as Square)
    else
      None
  }

  /** Every square's name reads back as that square. */
  lemma SquareNameRoundTrip(sq: Square)
    ensures ParseSquare(SquareName(sq)) == Some(sq)
  {
  }

  /** Every name of a square is that square's name. */
  lemma ParseSquareRoundTrip(name: seq<char>)
    requires ParseSquare(name).Some?
    ensures SquareName(ParseSquare(name).value) == name
  {
    var file, rank := name[0] as int - 'a' as int, name[1] as int - '1' as int;
    var sq := ParseSquare(name).value;
    SquareOfInt(8 * rank + file);
    SplitSquare(rank, file);
    assert SquareName(sq)[0] == name[0] && SquareName(sq)[1] == name[1];
  }

  lemma SquareOfInt(n: int)
    requires 0 <= n < 64
    ensures (n as Square) as int == n
  {
  }

  lemma SplitSquare(rank: int, file: int)
    requires 0 <= rank < 8 && 0 <= file < 8
    ensures (8 * rank + file) % 8 == file && (8 * rank + file) / 8 == rank
  {
  }

  /** The name's letter and digit are the square's file and rank. */
  lemma SquareNameFileRank(sq: Square)
    ensures SquareName(sq)[0] as int - 'a' as int == FileOf(sq) as int
    ensures SquareName(sq)[1] as int - '1' as int == RankOf(sq) as int
  {
  }

  /** enumSquare_to_string: writes the square's name into the first two cells of `res`. */
  method EnumSquareToString(res: array<char>, sq: Square)
    requires res.Length >= 2
    modifies res
    ensures res[..2] == SquareName(sq)
    ensures res[2..] == old(res[2..])
  {
    res[0] := ('a' as int + sq as int % 8) as char;
    res[1] := ('1' as int + sq as int / 8) as char;
  }

  // ---------------------------------------------------------------------
  // strtok: the fields of a string between separators.

  /**
   * The tokens strtok returns one after another: the maximal non-empty runs
   * of characters other than `sep`, separators before, between and after
   * them skipped.
   */
  function Tokens(s: seq<char>, sep: char): (r: seq<seq<char>>)
    ensures forall t :: t in r ==> t != [] && sep !in t
    ensures s != [] && s[0] != sep ==> r != []
    decreases |s|
  {
    if s == [] then []
    else if s[0] == sep then Tokens(s[1..], sep)
    else
      var rest := Tokens(s[1..], sep);
      if |s| > 1 && s[1] != sep then
        assert rest[0] in rest && forall t :: t in rest[1..] ==> t in rest;
        [[s[0]] + rest[0]] + rest[1..]
      else [[s[0]]] + rest
  }

  /** The fields written one after another with `sep` between them. */
  function Join(fields: seq<seq<char>>, sep: char): (s: seq<char>)
    ensures fields == [] ==> s == []
    decreases |fields|
  {
    if fields == [] then []
    else if |fields| == 1 then fields[0]
    else fields[0] + [sep] + Join(fields[1..], sep)
  }

  /** A non-empty field without separators, followed by a separator or the end, is one token. */
  lemma {:induction false} TokensOfField(f: seq<char>, rest: seq<char>, sep: char)
    requires f != [] && sep !in f
    requires rest == [] || rest[0] == sep
    ensures Tokens(f + rest, sep) == [f] + Tokens(rest, sep)
    decreases |f|
  {
    var s := f + rest;
    assert s[0] == f[0] && s[1..] == f[1..] + rest;
    if |f| > 1 {
      TokensOfField(f[1..], rest, sep);
      assert s[1] == f[1];
      assert [f[0]] + f[1..] == f;
    } else {
      assert f[1..] + rest == rest;
      assert [f[0]] == f;
    }
  }

  /** Splitting the joined fields gives the fields back, when none is empty or holds a separator. */
  lemma {:induction false} TokensJoin(fields: seq<seq<char>>, sep: char)
    requires forall t :: t in fields ==> t != [] && sep !in t
    ensures Tokens(Join(fields, sep), sep) == fields
    decreases |fields|
  {
    if |fields| == 1 {
      assert fields[0] in fields;
      TokensOfField(fields[0], [], sep);
      assert fields[0] + [] == fields[0];
    } else if |fields| > 1 {
      var tail := fields[1..];
      assert forall t :: t in tail ==> t in fields;
      TokensJoin(tail, sep);
      assert fields[0] in fields;
      var rest := [sep] + Join(tail, sep);
      TokensOfField(fields[0], rest, sep);
      assert fields[0] + [sep] + Join(tail, sep) == fields[0] + rest;
      assert rest[1..] == Join(tail, sep);
      assert [fields[0]] + tail == fields;
    }
  }

  // ---------------------------------------------------------------------
  // fen2bit: the board field of a FEN record.

  /** The piece letters, indexed by board (render_all's table); `A` and `a` stand for the colour unions. */
  const PieceLetters: seq<char> := "PNBRQKApnbrqka"

  /** The switch of fen2bit: the board a FEN piece letter is recorded on. */
  function LetterPiece(c: char): (p: Option<PieceIndex>)
    ensures p.Some? ==> IsPieceBoard(p.value) && PieceLetters[p.value] == c
    ensures p.None? <==> forall i: PieceIndex :: IsPieceBoard(i) ==> PieceLetters[i] != c
  {
    match c
    case 'P' => Some(WhitePawns)
    case 'N' => Some(WhiteKnights)
    case 'B' => Some(WhiteBishops)
    case 'R' => Some(WhiteRooks)
    case 'Q' => Some(WhiteQueens)
    case 'K' => Some(WhiteKing)
    case 'p' => Some(BlackPawns)
    case 'n' => Some(BlackKnights)
    case 'b' => Some(BlackBishops)
    case 'r' => Some(BlackRooks)
    case 'q' => Some(BlackQueens)
    case 'k' => Some(BlackKing)
    case _ => None
  }

  /** A digit that skips squares: '1' to '8'. */
  predicate IsSkip(c: char) {
    '0' < c <= '8'
  }

  /**
   * The reading of a rank field as FEN defines it: each digit stands for that
   * many empty squares and each piece letter for one occupied square, from
   * the a-file on; None when a character is neither.
   */
  function Expand(field: seq<char>): (row: Option<seq<Option<PieceIndex>>>)
    ensures row.Some? ==> forall k :: 0 <= k < |row.value| && row.value[k].Some? ==> IsPieceBoard(row.value[k].value)
    decreases |field|
  {
    if field == [] then Some([])
    else match Expand(field[1..])
      case None => None
      case Some(rest) =>
        if IsSkip(field[0]) then Some(Empties(field[0] as int - '0' as int) + rest)
        else match LetterPiece(field[0])
          case None => None
          case Some(p) => Some([Some(p)] + rest)
  }

  /** `n` empty squares. */
  function Empties(n: nat): (row: seq<Option<PieceIndex>>)
    ensures |row| == n && forall k :: 0 <= k < n ==> row[k].None?
  {
    seq(n, _ => None)
  }

  /** Board `p` holds a square whose occupant is `o`: `p` is the occupant's own board or its colour's union. */
  predicate Holds(o: Option<PieceIndex>, p: PieceIndex) {
    o.Some? && (o.value == p || OwnAll(o.value) == p)
  }

  /** Records a piece on square `sq`: its own board and its colour's union gain the square. */
  function Place(B: Board, p: PieceIndex, sq: Square): Board {
    B[p := SetSquare(B[p], sq)][OwnAll(p) := SetSquare(B[OwnAll(p)], sq)]
  }

  /** Placing a piece changes only its own board and its colour's union. */
  lemma PlaceBoard(B: Board, p: PieceIndex, sq: Square, q: PieceIndex)
    requires IsPieceBoard(p)
    ensures Place(B, p, sq)[q] == if Holds(Some(p), q) then SetSquare(B[q], sq) else B[q]
  {
  }

  lemma PlaceAt(B: Board, p: PieceIndex, sq: Square, q: PieceIndex, j: Square)
    requires IsPieceBoard(p)
    ensures Bit(Place(B, p, sq)[q], j) <==> Bit(B[q], j) || (j == sq && Holds(Some(p), q))
  {
    PlaceBoard(B, p, sq, q);
    SetSquareAt(B[q], sq, j);
  }

  /** The occupants of squares `idx`, `idx + 1`, ... recorded one after another. */
  function PlaceAll(B: Board, idx: nat, row: seq<Option<PieceIndex>>): Board
    requires idx + |row| <= 64
    decreases |row|
  {
    if row == [] then B
    else PlaceAll(if row[0].Some? then Place(B, row[0].value, idx as Square) else B, idx + 1, row[1..])
  }

  /** After recording a row from `idx`, board `q` holds square `j` when it did before or the row's occupant there belongs on it. */
  lemma {:induction false} PlaceAllAt(B: Board, idx: nat, row: seq<Option<PieceIndex>>, q: PieceIndex, j: Square)
    requires idx + |row| <= 64
    requires forall k :: 0 <= k < |row| && row[k].Some? ==> IsPieceBoard(row[k].value)
    ensures Bit(PlaceAll(B, idx, row)[q], j) <==>
      Bit(B[q], j) || (idx <= j as int < idx + |row| && Holds(row[j as int - idx], q))
    decreases |row|
  {
    if row != [] {
      var B' := if row[0].Some? then Place(B, row[0].value, idx as Square) else B;
      assert PlaceAll(B, idx, row) == PlaceAll(B', idx + 1, row[1..]);
      assert Bit(B'[q], j) <==> Bit(B[q], j) || (j as int == idx && Holds(row[0], q)) by {
        if row[0].Some? {
          PlaceAt(B, row[0].value, idx as Square, q, j);
          SameSquare(j, idx);
        }
      }
      PlaceAllAt(B', idx + 1, row[1..], q, j);
      if idx + 1 <= j as int < idx + |row| {
        assert row[1..][j as int - (idx + 1)] == row[j as int - idx];
      }
    }
  }

  lemma SameSquare(j: Square, idx: int)
    requires 0 <= idx < 64
    ensures j == idx as Square <==> j as int == idx
  {
  }

  /** Empty squares record nothing. */
  lemma {:induction false} PlaceAllSkip(B: Board, idx: nat, n: nat, row: seq<Option<PieceIndex>>)
    requires idx + n + |row| <= 64
    ensures PlaceAll(B, idx, Empties(n) + row) == PlaceAll(B, idx + n, row)
    decreases n
  {
    if n > 0 {
      var s := Empties(n) + row;
      assert s[0] == None;
      assert s[1..] == Empties(n - 1) + row;
      assert PlaceAll(B, idx, s) == PlaceAll(B, idx + 1, s[1..]);
      PlaceAllSkip(B, idx + 1, n - 1, row);
    } else {
      assert Empties(n) + row == row;
    }
  }

  /**
   * One pass of fen2bit's inner loop: a digit moves the index on; a piece
   * letter records the piece at the index, which must be on the board, and
   * moves on by one; any other character is rejected.
   */
  function ScanChar(B: Board, idx: int, c: char): Option<(Board, int)> {
    if IsSkip(c) then Some((B, idx + (c as int - '0' as int)))
    else match LetterPiece(c)
      case None => None
      case Some(p) => if 0 <= idx < 64 then Some((Place(B, p, idx as Square), idx + 1)) else None
  }

  /** fen2bit's inner loop over a whole rank field: the boards and the index after it. */
  function ScanRank(B: Board, idx: int, field: seq<char>): Option<(Board, int)>
    decreases |field|
  {
    if field == [] then Some((B, idx))
    else match ScanChar(B, idx, field[0])
      case None => None
      case Some((B', idx')) => ScanRank(B', idx', field[1..])
  }

  /**
   * Scanning a rank field is recording its reading: a field the scan accepts
   * reads as squares, the index moving on by their number, and a field that
   * reads as squares still on the board is accepted with exactly those recorded.
   */
  lemma {:induction false} ScanRankReads(B: Board, idx: nat, field: seq<char>)
    ensures ScanRank(B, idx, field).Some? ==>
      Expand(field).Some? && ScanRank(B, idx, field).value.1 == idx + |Expand(field).value|
    ensures Expand(field).Some? && idx + |Expand(field).value| <= 64 ==>
      ScanRank(B, idx, field) == Some((PlaceAll(B, idx, Expand(field).value), idx + |Expand(field).value|))
    decreases |field|
  {
    hide Place;
    if field != [] {
      var c := field[0];
      if IsSkip(c) {
        var n := c as int - '0' as int;
        ScanRankReads(B, idx + n, field[1..]);
        if Expand(field[1..]).Some? && idx + n + |Expand(field[1..]).value| <= 64 {
          PlaceAllSkip(B, idx, n, Expand(field[1..]).value);
        }
      } else if LetterPiece(c).Some? {
        var p := LetterPiece(c).value;
        if 0 <= idx < 64 {
          ScanRankReads(Place(B, p, idx as Square), idx + 1, field[1..]);
          if Expand(field[1..]).Some? {
            var row := [Some(p)] + Expand(field[1..]).value;
            assert row[1..] == Expand(field[1..]).value;
          }
        }
      }
    }
  }

  /** calloc's fourteen empty boards. */
  const EmptyBoard: Board := [0, 0, 0, 0, 0, 0, 0, 0, 0, 0, 0, 0, 0, 0]

  lemma EmptyBoardAt(q: PieceIndex, j: Square)
    ensures !Bit(EmptyBoard[q], j)
  {
    var b := EmptyBoard[q];
    assert b == 0;
  }

  /**
   * fen2bit's outer loop from rank `i` on, field `i` starting at square `8 * i`:
   * every field must be accepted and must end exactly where the next rank begins.
   */
  function ScanRanks(B: Board, i: nat, fields: seq<seq<char>>): Option<Board>
    requires i <= 8 == |fields|
    decreases 8 - i
  {
    if i == 8 then Some(B)
    else match ScanRank(B, 8 * i, fields[i])
      case None => None
      case Some((B', end)) => if end == 8 * (i + 1) then ScanRanks(B', i + 1, fields) else None
  }

  /** correct_fen: the first eight fields of the board, rank 1 first (a FEN record lists rank 8 first). */
  function BottomUp(tokens: seq<seq<char>>): (fields: seq<seq<char>>)
    requires |tokens| >= 8
    ensures |fields| == 8 && forall i :: 0 <= i < 8 ==> fields[i] == tokens[7 - i]
  {
    seq(8, i requires 0 <= i < 8 => tokens[7 - i])
  }

  /** fen2bit: the fourteen boards of a FEN board field; None where one of its checks fails. */
  function ReadBoard(boardFen: seq<char>): (r: Option<Board>)
    ensures r.Some? ==> |Tokens(boardFen, '/')| >= 8 && forall k | 0 <= k < 8 :: RankReads(Tokens(boardFen, '/')[k])
  {
    var tokens := Tokens(boardFen, '/');
    if |tokens| < 8 then None
    else
      var fields := BottomUp(tokens);
      var r := ScanRanks(EmptyBoard, 0, fields);
      assert r.Some? ==> forall k | 0 <= k < 8 :: RankReads(tokens[k]) by {
        ScanRanksExact(EmptyBoard, 0, fields);
        if r.Some? {
          forall k | 0 <= k < 8 ensures RankReads(tokens[k]) {
            assert tokens[k] == fields[7 - k];
          }
        }
      }
      r
  }

  // The board field as FEN defines it, independently of the scan.

  /** A rank field reads as exactly eight squares. */
  predicate RankReads(field: seq<char>) {
    Expand(field).Some? && |Expand(field).value| == 8
  }

  /** Eight rows of eight squares, rank 1 first. */
  predicate IsGrid(rows: seq<seq<Option<PieceIndex>>>) {
    |rows| == 8 && forall r :: 0 <= r < 8 ==> |rows[r]| == 8
  }

  /** Only piece boards occur as occupants. */
  predicate PiecesOnly(rows: seq<seq<Option<PieceIndex>>>) {
    forall r, f :: 0 <= r < |rows| && 0 <= f < |rows[r]| && rows[r][f].Some? ==> IsPieceBoard(rows[r][f].value)
  }

  /** The occupants of the 64 squares a FEN board field describes, rank 1 first; None unless its first eight fields each read as eight squares. */
  function ParseRows(boardFen: seq<char>): (rows: Option<seq<seq<Option<PieceIndex>>>>)
    ensures rows.Some? ==> IsGrid(rows.value) && PiecesOnly(rows.value)
  {
    var tokens := Tokens(boardFen, '/');
    if |tokens| < 8 then None
    else
      var fields := BottomUp(tokens);
      if forall i :: 0 <= i < 8 ==> RankReads(fields[i]) then
        Some(seq(8, i requires 0 <= i < 8 => Expand(fields[i]).value))
      else None
  }

  /** The occupant of square `j`. */
  function Occupant(rows: seq<seq<Option<PieceIndex>>>, j: Square): Option<PieceIndex>
    requires IsGrid(rows)
  {
    rows[j as int / 8][j as int % 8]
  }

  /** The boards record exactly the occupants: each board holds the squares whose occupant belongs on it. */
  ghost predicate Describes(R: Board, rows: seq<seq<Option<PieceIndex>>>)
    requires IsGrid(rows)
  {
    forall q: PieceIndex, j: Square :: Bit(R[q], j) <==> Holds(Occupant(rows, j), q)
  }

  /** The outer loop accepts the remaining fields exactly when each reads as eight squares, and then records them rank by rank. */
  lemma {:induction false} ScanRanksExact(B: Board, i: nat, fields: seq<seq<char>>)
    requires i <= 8 == |fields|
    ensures ScanRanks(B, i, fields).Some? <==> forall k :: i <= k < 8 ==> RankReads(fields[k])
    ensures ScanRanks(B, i, fields).Some? ==>
      forall q: PieceIndex, j: Square :: Bit(ScanRanks(B, i, fields).value[q], j) <==>
        Bit(B[q], j) || (8 * i <= j as int && Holds(Expand(fields[j as int / 8]).value[j as int % 8], q))
    decreases 8 - i
  {
    hide ScanRank, PlaceAll, Expand, Bit, Holds;
    if i < 8 {
      if RankReads(fields[i]) {
        var B' := PlaceAll(B, 8 * i, Expand(fields[i]).value);
        ScanRanksStep(B, i, fields);
        ScanRanksExact(B', i + 1, fields);
        assert (forall k :: i <= k < 8 ==> RankReads(fields[k])) <==>
          (forall k :: i + 1 <= k < 8 ==> RankReads(fields[k]));
        if ScanRanks(B, i, fields).Some? {
          var R := ScanRanks(B, i, fields).value;
          forall q: PieceIndex, j: Square
            ensures Bit(R[q], j) <==>
              Bit(B[q], j) || (8 * i <= j as int && Holds(Expand(fields[j as int / 8]).value[j as int % 8], q))
          {
            RankLayer(B, i, fields, q, j);
          }
        }
      } else {
        ScanRanksReject(B, i, fields);
      }
    }
  }

  /** A rank field that reads as eight squares is accepted and recorded from its first square. */
  lemma ScanRanksStep(B: Board, i: nat, fields: seq<seq<char>>)
    requires i < 8 == |fields| && RankReads(fields[i])
    ensures ScanRanks(B, i, fields) == ScanRanks(PlaceAll(B, 8 * i, Expand(fields[i]).value), i + 1, fields)
  {
    ScanRankReads(B, 8 * i, fields[i]);
  }

  /** A rank field that does not read as eight squares is rejected. */
  lemma ScanRanksReject(B: Board, i: nat, fields: seq<seq<char>>)
    requires i < 8 == |fields| && !RankReads(fields[i])
    ensures ScanRanks(B, i, fields).None?
  {
    ScanRankReads(B, 8 * i, fields[i]);
    var scanned := ScanRank(B, 8 * i, fields[i]);
    if scanned.Some? {
      assert scanned.value.1 != 8 * (i + 1);
    }
  }

  /** Recording rank `i` adds the occupants of squares 8i to 8i + 7 and nothing else. */
  lemma RankLayer(B: Board, i: nat, fields: seq<seq<char>>, q: PieceIndex, j: Square)
    requires i < 8 == |fields| && RankReads(fields[i])
    ensures Bit(PlaceAll(B, 8 * i, Expand(fields[i]).value)[q], j) <==>
      Bit(B[q], j) || (8 * i <= j as int < 8 * i + 8 && Holds(Expand(fields[j as int / 8]).value[j as int % 8], q))
  {
    PlaceAllAt(B, 8 * i, Expand(fields[i]).value, q, j);
    if 8 * i <= j as int < 8 * i + 8 {
      assert j as int / 8 == i && j as int % 8 == j as int - 8 * i;
    }
  }

  /** fen2bit accepts a board field exactly when it reads as 64 squares, and its boards then record those occupants. */
  lemma ReadBoardDescribes(boardFen: seq<char>)
    ensures ReadBoard(boardFen).Some? <==> ParseRows(boardFen).Some?
    ensures ReadBoard(boardFen).Some? ==> Describes(ReadBoard(boardFen).value, ParseRows(boardFen).value)
  {
    var tokens := Tokens(boardFen, '/');
    if |tokens| >= 8 {
      var fields := BottomUp(tokens);
      ScanRanksExact(EmptyBoard, 0, fields);
      if ParseRows(boardFen).Some? {
        var rows := ParseRows(boardFen).value;
        var S := ReadBoard(boardFen).value;
        forall q: PieceIndex, j: Square
          ensures Bit(S[q], j) <==> Holds(Occupant(rows, j), q)
        {
          EmptyBoardAt(q, j);
        }
      }
    }
  }

  /** fen2bit's result is exactly the boards that record the occupants FEN describes. */
  lemma ReadBoardExact(boardFen: seq<char>, R: Board)
    ensures ReadBoard(boardFen) == Some(R) <==>
      ParseRows(boardFen).Some? && Describes(R, ParseRows(boardFen).value)
  {
    ReadBoardDescribes(boardFen);
    if ParseRows(boardFen).Some? && Describes(R, ParseRows(boardFen).value) {
      DescribesUnique(R, ReadBoard(boardFen).value, ParseRows(boardFen).value);
    }
  }

  /** The occupants determine the boards. */
  lemma DescribesUnique(R: Board, S: Board, rows: seq<seq<Option<PieceIndex>>>)
    requires IsGrid(rows) && Describes(R, rows) && Describes(S, rows)
    ensures R == S
  {
    forall q: PieceIndex
      ensures R[q] == S[q]
    {
      forall j: Square
        ensures Bit(R[q], j) <==> Bit(S[q], j)
      {
        assert Bit(R[q], j) <==> Holds(Occupant(rows, j), q);
        assert Bit(S[q], j) <==> Holds(Occupant(rows, j), q);
      }
      BitsDetermine(R[q], S[q]);
    }
  }

  /** Boards recording one occupant per square describe a position consistently. */
  lemma DescribesWellFormed(R: Board, rows: seq<seq<Option<PieceIndex>>>)
    requires IsGrid(rows) && PiecesOnly(rows) && Describes(R, rows)
    ensures WellFormed(R)
  {
    forall j: Square
      ensures ConsistentAt(R, j)
    {
      var o := Occupant(rows, j);
      if o.Some? {
        assert Bit(R[o.value], j);
      }
    }
  }

  /** Every board fen2bit accepts is a consistent position. */
  lemma ReadBoardWellFormed(boardFen: seq<char>)
    requires ReadBoard(boardFen).Some?
    ensures WellFormed(ReadBoard(boardFen).value)
  {
    var R := ReadBoard(boardFen).value;
    ReadBoardDescribes(boardFen);
    DescribesWellFormed(R, ParseRows(boardFen).value);
  }

  /**
   * fen2bit: splits the board field at '/', takes its first eight fields
   * bottom rank first, and records each piece letter on its own board and
   * its colour's union. None where one of fen2bit's checks fails: fewer than
   * eight fields, a character that is neither a digit 1-8 nor a piece letter,
   * a piece beyond square 63, or a rank that does not end on its last square.
   */
  method Fen2Bit(boardFen: seq<char>) returns (r: Option<Board>)
    ensures r == ReadBoard(boardFen)
  {
    var tokens := Tokens(boardFen, '/');
    if |tokens| < 8 {
      return None;
    }
    var correctFen := new seq<char>[8];
    for i := 8 downto 0
      invariant forall k :: i <= k < 8 ==> correctFen[k] == tokens[7 - k]
    {
      correctFen[i] := tokens[7 - i];
    }
    var fields := correctFen[..];
    assert fields == BottomUp(tokens);
    var bitBoard := new bv64[NumPieceTypes](_ => 0);
    assert bitBoard[..] == EmptyBoard;
    for i := 0 to 8
      invariant ScanRanks(bitBoard[..], i, fields) == ScanRanks(EmptyBoard, 0, fields)
    {
      var ok, bbIndex := ScanRankInto(bitBoard, fields[i], 8 * i);
      if !ok || bbIndex != 8 * (i + 1) {
        return None;
      }
    }
    return Some(bitBoard[..]);
  }

  /**
   * fen2bit's inner loop over one rank field, from square `start`: records
   * the field's pieces on `bitBoard` and returns the index after the field;
   * `ok` is false where a character is rejected or a piece falls off the board.
   */
  method ScanRankInto(bitBoard: array<bv64>, str: seq<char>, start: int) returns (ok: bool, bbIndex: int)
    requires bitBoard.Length == NumPieceTypes
    modifies bitBoard
    ensures ok ==> ScanRank(old(bitBoard[..]), start, str) == Some((bitBoard[..], bbIndex))
    ensures !ok ==> ScanRank(old(bitBoard[..]), start, str).None?
  {
    bbIndex := start;
    for c := 0 to |str|
      invariant ScanRank(bitBoard[..], bbIndex, str[c..]) == ScanRank(old(bitBoard[..]), start, str)
    {
      var curr := str[c];
      assert str[c..][1..] == str[c + 1..];
      if IsSkip(curr) {
        bbIndex := bbIndex + (curr as int - '0' as int);
        continue;
      }
      var piece := LetterPiece(curr);
      if piece.None? {
        return false, bbIndex;
      }
      if !(0 <= bbIndex < 64) {
        return false, bbIndex;
      }
      var p := piece.value;
      var colour := OwnAll(p);
      var position := bbIndex as Square;
      bitBoard[p] := SetSquare(bitBoard[p], position);
      bitBoard[colour] := SetSquare(bitBoard[colour], position);
      bbIndex := bbIndex + 1;
    }
    assert str[|str|..] == [];
    return true, bbIndex;
  }

  // ---------------------------------------------------------------------
  // The index of fen2bit's inner loop is a C `char`.

  /** A C `char` holding an integer: the value wrapped to -128..127, as a signed char stores it. */
  function Char8(y: int): (r: int)
    ensures -128 <= r < 128 && (r - y) % 256 == 0
  {
    (y + 128) % 256 - 128
  }

  /** fen2bit's inner loop as written: `bb_index` is a `char`, so every new index wraps. */
  function ScanRankAsWritten(B: Board, idx: int, field: seq<char>): (r: Option<(Board, int)>)
    ensures r.Some? && field != [] ==> -128 <= r.value.1 < 128
    decreases |field|
  {
    if field == [] then Some((B, idx))
    else match ScanChar(B, idx, field[0])
      case None => None
      case Some((B', idx')) => ScanRankAsWritten(B', Char8(idx'), field[1..])
  }

  /** `n` eights: 8n empty squares. */
  function Eights(n: nat): (s: seq<char>)
    ensures |s| == n && forall k :: 0 <= k < n ==> s[k] == '8'
  {
    seq(n, _ => '8')
  }

  /** A rank field that passes fen2bit's checks as written: a white pawn on a1, 255 empty squares, a black pawn, 7 empty squares. */
  const WrapField: seq<char> := ['P'] + Eights(31) + ['7', 'p', '7']

  /** A value already in the `char` range is left as it is. */
  lemma Char8Fixed(y: int)
    requires -128 <= y < 128
    ensures Char8(y) == y
  {
  }

  /** Wrapping twice is wrapping once. */
  lemma Char8Shift(a: int, b: int)
    ensures Char8(Char8(a) + b) == Char8(a + b)
  {
    var k := (Char8(a) - a) / 256;
    assert Char8(a) == a + 256 * k;
    assert (a + b + 128 + 256 * k) % 256 == (a + b + 128) % 256;
  }

  lemma {:induction false} EightsAsWritten(B: Board, idx: int, n: nat, rest: seq<char>)
    requires -128 <= idx < 128
    ensures ScanRankAsWritten(B, idx, Eights(n) + rest) == ScanRankAsWritten(B, Char8(idx + 8 * n), rest)
    decreases n
  {
    var s := Eights(n) + rest;
    if n == 0 {
      assert s == rest;
      Char8Fixed(idx);
    } else {
      var tail, next := Eights(n - 1) + rest, Char8(idx + 8);
      assert s == ['8'] + tail;
      SkipAsWritten(B, idx, '8', tail);
      hide *;
      EightsAsWritten(B, next, n - 1, rest);
      Char8Shift(idx + 8, 8 * (n - 1));
      assert idx + 8 + 8 * (n - 1) == idx + 8 * n;
      assert Char8(next + 8 * (n - 1)) == Char8(idx + 8 * n);
    }
  }

  /** A digit moves the `char` index on by its value and wraps it. */
  lemma SkipAsWritten(B: Board, idx: int, c: char, tail: seq<char>)
    requires IsSkip(c)
    ensures ScanRankAsWritten(B, idx, [c] + tail) == ScanRankAsWritten(B, Char8(idx + (c as int - '0' as int)), tail)
  {
    var s := [c] + tail;
    assert s[0] == c && s[1..] == tail;
  }

  lemma {:induction false} EightsScan(B: Board, idx: int, n: nat, rest: seq<char>)
    ensures ScanRank(B, idx, Eights(n) + rest) == ScanRank(B, idx + 8 * n, rest)
    decreases n
  {
    var s := Eights(n) + rest;
    if n == 0 {
      assert s == rest;
    } else {
      assert s[0] == '8' && s[1..] == Eights(n - 1) + rest;
      EightsScan(B, idx + 8, n - 1, rest);
    }
  }

  /**
   * As written, fen2bit accepts WrapField as rank 1: the index wraps from
   * 249 back to -7, the field ends on square 8 as the check demands, and
   * square a1 is recorded as holding both a white and a black pawn.
   */
  lemma WrapFieldAcceptedAsWritten() returns (B: Board)
    ensures ScanRankAsWritten(EmptyBoard, 0, WrapField) == Some((B, 8))
    ensures Bit(B[WhitePawns], 0) && Bit(B[BlackPawns], 0) && !ConsistentAt(B, 0)
  {
    var pawn := Place(EmptyBoard, WhitePawns, 0);
    B := Place(pawn, BlackPawns, 0);
    var tail := ['7', 'p', '7'];
    assert WrapField[0] == 'P' && WrapField[1..] == Eights(31) + tail;
    assert ScanRankAsWritten(EmptyBoard, 0, WrapField) == ScanRankAsWritten(pawn, 1, Eights(31) + tail);
    EightsAsWritten(pawn, 1, 31, tail);
    assert Char8(1 + 8 * 31) == -7;
    assert tail[1..] == ['p', '7'] && tail[2..] == ['7'];
    assert ScanRankAsWritten(pawn, -7, tail) == Some((B, 8));
    PlaceAt(pawn, BlackPawns, 0, WhitePawns, 0);
    PlaceAt(EmptyBoard, WhitePawns, 0, WhitePawns, 0);
    PlaceAt(pawn, BlackPawns, 0, BlackPawns, 0);
  }

  /** With an unbounded index the same field runs off the board and is rejected: it does not read as eight squares. */
  lemma WrapFieldRejected()
    ensures ScanRank(EmptyBoard, 0, WrapField).None?
    ensures !RankReads(WrapField)
  {
    var pawn := Place(EmptyBoard, WhitePawns, 0);
    var tail := ['7', 'p', '7'];
    assert WrapField[0] == 'P' && WrapField[1..] == Eights(31) + tail;
    assert ScanRank(EmptyBoard, 0, WrapField) == ScanRank(pawn, 1, Eights(31) + tail);
    EightsScan(pawn, 1, 31, tail);
    assert tail[1..] == ['p', '7'];
    assert ScanRank(pawn, 256, tail[1..]).None?;
    ScanRankReads(EmptyBoard, 0, WrapField);
  }

  // ---------------------------------------------------------------------
  // extract_fen_tokens: side to move, castling rights, en passant.

  /** The square whose bit a castling letter adds (g1, c1, g8, c8); none for '-' and any other character. */
  function CastlingSquare(c: char): (sq: Option<Square>)
    ensures sq.Some? <==> c in "KQkq"
  {
    match c
    case 'K' => Some(6)
    case 'Q' => Some(2)
    case 'k' => Some(62)
    case 'q' => Some(58)
    case _ => None
  }

  /** What one character of the castling field adds. */
  function CastlingValue(c: char): bv64 {
    if CastlingSquare(c).Some? then SquareBit(CastlingSquare(c).value) else 0
  }

  /** `a + b` on 64-bit unsigned integers, wrapping at 2^64. */
  function Plus(a: bv64, b: bv64): bv64 {
    a + b
  }

  /** The castling loop's running sum over the field (`tokens->castling += 1UL << sq`). */
  function CastlingSum(field: seq<char>): (sum: bv64)
    ensures (forall k | 0 <= k < |field| :: field[k] !in "KQkq") ==> sum == 0
    ensures |field| == 1 && field[0] in "KQkq" ==> sum == SquareBit(CastlingSquare(field[0]).value)
    decreases |field|
  {
    if field == [] then 0
    else Plus(CastlingSum(field[..|field| - 1]), CastlingValue(field[|field| - 1]))
  }

  lemma CastlingSumStep(field: seq<char>, c: nat)
    requires c < |field|
    ensures CastlingSum(field[..c + 1]) == Plus(CastlingSum(field[..c]), CastlingValue(field[c]))
  {
    var prefix := field[..c + 1];
    assert prefix[..c] == field[..c] && prefix[c] == field[c];
  }

  /** No castling letter occurs twice. */
  predicate NoRepeatedRight(field: seq<char>) {
    forall i, j :: 0 <= i < j < |field| && CastlingSquare(field[i]).Some? ==> field[j] != field[i]
  }

  lemma CastlingSquareInjective(a: char, b: char)
    requires CastlingSquare(a).Some? && CastlingSquare(a) == CastlingSquare(b)
    ensures a == b
  {
  }

  /** Some letter of the field grants the right on `sq`. */
  predicate Grants(field: seq<char>, sq: Square) {
    exists i :: 0 <= i < |field| && CastlingSquare(field[i]) == Some(sq)
  }

  /**
   * Without a repeated letter the sum never carries: the rights are exactly
   * the squares of the letters present.
   */
  lemma {:induction false} CastlingExact(field: seq<char>)
    requires NoRepeatedRight(field)
    ensures forall sq: Square :: Bit(CastlingSum(field), sq) <==> Grants(field, sq)
    decreases |field|
  {
    if field != [] {
      var init := field[..|field| - 1];
      assert forall i :: 0 <= i < |init| ==> init[i] == field[i];
      CastlingExact(init);
      assert init + [field[|field| - 1]] == field;
      CastlingExtend(init, field[|field| - 1]);
    } else {
      forall j: Square
        ensures !Bit(CastlingSum(field), j)
      {
        var zero := CastlingSum(field);
        assert zero == 0;
      }
    }
  }

  /** One more letter, not seen before, adds its own square and nothing else. */
  lemma CastlingExtend(init: seq<char>, last: char)
    requires NoRepeatedRight(init + [last])
    requires forall sq: Square :: Bit(CastlingSum(init), sq) <==> Grants(init, sq)
    ensures forall sq: Square :: Bit(CastlingSum(init + [last]), sq) <==> Grants(init + [last], sq)
  {
    var field := init + [last];
    CastlingSumStep(field, |init|);
    assert field[..|init| + 1] == field && field[..|init|] == init && field[|init|] == last;
    forall j: Square {
      GrantsSnoc(init, last, j);
    }
    if CastlingSquare(last).Some? {
      LastRightIsNew(init, last, CastlingSquare(last).value);
    }
    ExtendBits(init, last, CastlingSum(init), CastlingSum(field));
  }

  /** The squares granted by a field with one more letter. */
  lemma GrantsSnoc(init: seq<char>, last: char, j: Square)
    ensures Grants(init + [last], j) <==> Grants(init, j) || CastlingSquare(last) == Some(j)
  {
    var field := init + [last];
    if Grants(field, j) {
      var i :| 0 <= i < |field| && CastlingSquare(field[i]) == Some(j);
      if i < |init| {
        assert init[i] == field[i];
      }
    }
    if Grants(init, j) {
      var i :| 0 <= i < |init| && CastlingSquare(init[i]) == Some(j);
      assert field[i] == init[i];
    }
    if CastlingSquare(last) == Some(j) {
      assert field[|init|] == last;
    }
  }

  /** The bits after adding one more letter's value, when its square was not set before. */
  lemma ExtendBits(init: seq<char>, last: char, before: bv64, after: bv64)
    requires after == Plus(before, CastlingValue(last))
    requires forall sq: Square :: Bit(before, sq) <==> Grants(init, sq)
    requires CastlingSquare(last).Some? ==> !Grants(init, CastlingSquare(last).value)
    ensures forall sq: Square :: Bit(after, sq) <==> Grants(init, sq) || CastlingSquare(last) == Some(sq)
  {
    if CastlingSquare(last).Some? {
      AddNewRight(before, CastlingSquare(last).value, after);
    } else {
      PlusZero(before);
    }
  }

  lemma PlusZero(a: bv64)
    ensures Plus(a, 0) == a
  {
  }

  /** The last letter's square is no earlier letter's square. */
  lemma LastRightIsNew(init: seq<char>, last: char, sq: Square)
    requires NoRepeatedRight(init + [last]) && CastlingSquare(last) == Some(sq)
    ensures !Grants(init, sq)
  {
    var field := init + [last];
    if Grants(init, sq) {
      var i :| 0 <= i < |init| && CastlingSquare(init[i]) == Some(sq);
      assert field[i] == init[i] && field[|init|] == last;
      CastlingSquareInjective(init[i], last);
      assert false;
    }
  }

  /** Adding the bit of a square not yet set sets exactly that square. */
  lemma AddNewRight(before: bv64, sq: Square, after: bv64)
    requires !Bit(before, sq) && after == Plus(before, SquareBit(sq))
    ensures forall j: Square :: Bit(after, j) <==> Bit(before, j) || j == sq
  {
    AddClearBit(before, SquareBit(sq), sq, after);
    forall j: Square
      ensures Bit(after, j) <==> Bit(before, j) || j == sq
    {
      SetSquareAt(before, sq, j);
    }
  }

  /** A repeated letter carries into the next square: "KK" grants the h1 bit and not g1. */
  lemma CastlingCarries()
    ensures CastlingSum("KK") == SquareBit(7)
  {
    assert "KK"[..1] == "K" && "K"[..0] == [];
  }

  /**
   * The castling part of extract_fen_tokens: sums the rights of the field's
   * letters; None when the field has more than four characters.
   */
  method CastlingRights(field: seq<char>) returns (r: Option<bv64>)
    ensures r.None? <==> |field| > 4
    ensures r.Some? ==> r.value == CastlingSum(field)
  {
    var castling: bv64 := 0;
    for c := 0 to |field|
      invariant c <= 4
      invariant castling == CastlingSum(field[..c])
    {
      if !(c < 4) {
        return None;
      }
      CastlingSumStep(field, c);
      var sq := CastlingSquare(field[c]);
      if sq.Some? {
        castling := Plus(castling, SquareBit(sq.value));
      }
    }
    assert field[..|field|] == field;
    return Some(castling);
  }

  /** The fields of a FEN record extract_fen_tokens keeps. */
  datatype FenInfo = FenInfo(board: Board, whiteToMove: bool, castling: bv64, enPassant: bv64)

  /**
   * extract_fen_tokens: the record's space-separated fields are the board,
   * the side to move ("w" for White, anything else Black), the castling
   * rights, the en passant target (always recorded as none), and the two
   * move counters, which must be present.
   */
  function ReadFen(fenString: seq<char>): (r: Option<FenInfo>)
    ensures |Tokens(fenString, ' ')| < 6 ==> r.None?
    ensures r.Some? ==> WellFormed(r.value.board) && r.value.enPassant == 0
  {
    var fields := Tokens(fenString, ' ');
    if |fields| < 6 || |fields[2]| > 4 then None
    else match ReadBoard(fields[0])
      case None => None
      case Some(B) =>
        ReadBoardWellFormed(fields[0]);
        Some(FenInfo(B, fields[1] == "w", CastlingSum(fields[2]), 0))
  }

  /** extract_fen_tokens. */
  method ExtractFenTokens(fenString: seq<char>) returns (r: Option<FenInfo>)
    ensures r == ReadFen(fenString)
  {
    var fields := Tokens(fenString, ' ');
    if |fields| < 6 {
      return None;
    }
    var boardFen := fields[0];
    var whiteToMove := fields[1] == "w";
    var castling := CastlingRights(fields[2]);
    if castling.None? {
      return None;
    }
    var enPassant: bv64 := 0;
    var board := Fen2Bit(boardFen);
    if board.None? {
      return None;
    }
    return Some(FenInfo(board.value, whiteToMove, castling.value, enPassant));
  }

  /**
   * A record written from six fields reads back as those fields: the board
   * the first describes, the side the second names, the rights of the third.
   */
  lemma ReadFenFields(fields: seq<seq<char>>)
    requires |fields| == 6 && forall t :: t in fields ==> t != [] && ' ' !in t
    requires |fields[2]| <= 4 && ParseRows(fields[0]).Some?
    ensures ReadFen(Join(fields, ' ')).Some?
    ensures var info := ReadFen(Join(fields, ' ')).value;
      && Describes(info.board, ParseRows(fields[0]).value)
      && WellFormed(info.board)
      && info.whiteToMove == (fields[1] == "w")
      && info.castling == CastlingSum(fields[2])
      && info.enPassant == 0
  {
    TokensJoin(fields, ' ');
    ReadBoardDescribes(fields[0]);
    ReadBoardWellFormed(fields[0]);
  }
}
