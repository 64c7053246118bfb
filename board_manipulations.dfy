/**
 * The bit layer of the bitboard engine (lichess_bot_C/src/board_manipulations.c):
 * de Bruijn bit scans, population count, line masks, the eight direction rays
 * and `make_move`, which rewrites the fourteen boards of a position in place.
 */
module BoardManipulations {
  import opened DataStructs

  /** No square below `k` is set on `b`. */
  predicate LowClear(b: bv64, k: Square) {
    b & (((1 as bv64) << k) - 1) == 0
  }

  /** No square above `k` is set on `b`. */
  predicate HighClear(b: bv64, k: Square) {
    (b >> k) >> 1 == 0
  }

  /** `k` is the least significant set square of `b`. */
  predicate IsLowest(b: bv64, k: Square) {
    Bit(b, k) && LowClear(b, k)
  }

  /** `k` is the most significant set square of `b`. */
  predicate IsHighest(b: bv64, k: Square) {
    Bit(b, k) && HighClear(b, k)
  }

  lemma LowClearAt(b: bv64, k: Square, j: Square)
    requires LowClear(b, k) && j < k
    ensures !Bit(b, j)
  {
  }

  lemma HighClearAt(b: bv64, k: Square, j: Square)
    requires HighClear(b, k) && k < j
    ensures !Bit(b, j)
  {
  }

  lemma LowClearStep(b: bv64, k: Square)
    requires k != 63 && LowClear(b, k) && !Bit(b, k)
    ensures LowClear(b, k + 1)
  {
  }

  lemma LowClearTop(b: bv64)
    requires b != 0 && LowClear(b, 63)
    ensures Bit(b, 63)
  {
  }

  lemma HighClearStep(b: bv64, k: Square)
    requires k != 0 && HighClear(b, k) && !Bit(b, k)
    ensures HighClear(b, k - 1)
  {
  }

  lemma HighClearBottom(b: bv64)
    requires b != 0 && HighClear(b, 0)
    ensures Bit(b, 0)
  {
  }

  /** The lowest set square of a non-empty board, found by walking up from `k`. */
  ghost function LowestFrom(b: bv64, k: Square): (r: Square)
    requires b != 0 && LowClear(b, k)
    ensures IsLowest(b, r)
    decreases 63 - k
  {
    if Bit(b, k) then k
    else
      assert k != 63 by {
        if k == 63 {
          LowClearTop(b);
          assert false;
        }
      }
      LowClearStep(b, k);
      LowestFrom(b, k + 1)
  }

  /** The highest set square of a non-empty board, found by walking down from `k`. */
  ghost function HighestFrom(b: bv64, k: Square): (r: Square)
    requires b != 0 && HighClear(b, k)
    ensures IsHighest(b, r)
    decreases k
  {
    if Bit(b, k) then k
    else
      assert k != 0 by {
        if k == 0 {
          HighClearBottom(b);
          assert false;
        }
      }
      HighClearStep(b, k);
      HighestFrom(b, k - 1)
  }

  lemma LowestExists(b: bv64) returns (k: Square)
    requires b != 0
    ensures IsLowest(b, k)
  {
    assert LowClear(b, 0);
    k := LowestFrom(b, 0);
  }

  lemma HighestExists(b: bv64) returns (k: Square)
    requires b != 0
    ensures IsHighest(b, k)
  {
    assert HighClear(b, 63);
    k := HighestFrom(b, 63);
  }

  /** The least significant set square of a non-empty board. */
  ghost function Lowest(b: bv64): (k: Square)
    requires b != 0
    ensures IsLowest(b, k)
  {
    assert LowClear(b, 0);
    LowestFrom(b, 0)
  }

  lemma LowestUnique(b: bv64, k1: Square, k2: Square)
    requires IsLowest(b, k1) && IsLowest(b, k2)
    ensures k1 == k2
  {
    if k1 < k2 {
      LowClearAt(b, k2, k1);
    } else if k2 < k1 {
      LowClearAt(b, k1, k2);
    }
  }

  lemma IsolateLowest(b: bv64, k: Square)
    requires IsLowest(b, k)
    ensures b ^ (b - 1) == LowMask(k)
  {
  }

  /**
   * bitScanForward: the de Bruijn hash of `bb ^ (bb - 1)` looked up in
   * LS1BIndex64 is the least significant set square.
   */
  function BitScanForward(bb: bv64): (r: Square)
    requires bb != 0
    ensures IsLowest(bb, r)
  {
    ScanForwardSlot(bb);
    LS1BIndex64[DeBruijnSlot(bb ^ (bb - 1))]
  }

  lemma ScanForwardSlot(bb: bv64)
    requires bb != 0
    ensures DeBruijnSlot(bb ^ (bb - 1)) < 64
    ensures IsLowest(bb, LS1BIndex64[DeBruijnSlot(bb ^ (bb - 1))])
  {
    var k := LowestExists(bb);
    IsolateLowest(bb, k);
    TableInverts(k);
  }

  /** The six shift-or steps of bitScanReverse, copying the highest set bit into every lower bit. */
  function Smear(bb: bv64): bv64 {
    var b1 := bb | (bb >> 1);
    var b2 := b1 | (b1 >> 2);
    var b3 := b2 | (b2 >> 4);
    var b4 := b3 | (b3 >> 8);
    var b5 := b4 | (b4 >> 16);
    b5 | (b5 >> 32)
  }

  /** A smeared board is a run of ones from bit 0 that covers the board and ends at its top bit. */
  lemma SmearShape(bb: bv64)
    ensures Smear(bb) & (Smear(bb) + 1) == 0
  {
  }

  lemma SmearCovers(bb: bv64)
    ensures bb <= Smear(bb)
  {
  }

  lemma SmearTight(bb: bv64)
    ensures bb == 0 || Smear(bb) >> 1 < bb
  {
  }

  /** The only run of ones from bit 0 that covers `bb` and ends at its top bit is the low mask of its highest square. */
  lemma LowMaskUnique(x: bv64, bb: bv64, k: Square)
    requires x & (x + 1) == 0 && bb <= x && x >> 1 < bb
    requires IsHighest(bb, k)
    ensures x == LowMask(k)
  {
  }

  lemma SmearIsLowMask(bb: bv64, k: Square)
    requires IsHighest(bb, k)
    ensures Smear(bb) == LowMask(k)
  {
    SmearShape(bb);
    SmearCovers(bb);
    SmearTight(bb);
    LowMaskUnique(Smear(bb), bb, k);
  }

  /**
   * bitScanReverse: after smearing, the board is the low mask of its highest
   * set square, which the same table decodes.
   */
  function BitScanReverse(bb: bv64): (r: Square)
    requires bb != 0
    ensures IsHighest(bb, r)
  {
    ScanReverseSlot(bb);
    LS1BIndex64[DeBruijnSlot(Smear(bb))]
  }

  lemma ScanReverseSlot(bb: bv64)
    requires bb != 0
    ensures DeBruijnSlot(Smear(bb)) < 64
    ensures IsHighest(bb, LS1BIndex64[DeBruijnSlot(Smear(bb))])
  {
    var k := HighestExists(bb);
    SmearIsLowMask(bb, k);
    TableInverts(k);
  }

  /** The scans agree exactly on boards with a single set square. */
  lemma ScansAgreeOnSingleton(sq: Square)
    ensures BitScanForward(SquareBit(sq)) == sq && BitScanReverse(SquareBit(sq)) == sq
  {
    var f := BitScanForward(SquareBit(sq));
    var r := BitScanReverse(SquareBit(sq));
    if f != sq {
      LowClearAt(SquareBit(sq), f, sq);
    }
    if r != sq {
      HighClearAt(SquareBit(sq), r, sq);
    }
  }

  /** `b & (b - 1)` clears the lowest set square `k` and nothing else. */
  lemma ClearLowestAt(b: bv64, k: Square, j: Square)
    requires IsLowest(b, k)
    ensures Bit(b & (b - 1), j) <==> Bit(b, j) && j != k
  {
    ClearIsFlip(b, k);
    FlipAt(b, k, j);
  }

  lemma ClearIsFlip(b: bv64, k: Square)
    requires IsLowest(b, k)
    ensures b & (b - 1) == b ^ SquareBit(k)
  {
  }

  lemma FlipAt(b: bv64, k: Square, j: Square)
    ensures Bit(b ^ SquareBit(k), j) <==> Bit(b, j) != (j == k)
  {
  }

  /** Clearing the lowest set square makes a non-empty board strictly smaller. */
  lemma ClearLowestDecreases(b: bv64)
    requires b != 0
    ensures b & (b - 1) < b
  {
  }

  /**
   * The set squares of a board in the order the engine visits them:
   * repeatedly take the lowest set square and clear it with `bb &= bb - 1`.
   */
  ghost function SetSquares(bb: bv64): seq<Square>
    decreases bb
  {
    if bb == 0 then []
    else
      ClearLowestDecreases(bb);
      [Lowest(bb)] + SetSquares(bb & (bb - 1))
  }

  lemma {:induction false} SetSquaresAt(bb: bv64, j: Square)
    ensures j in SetSquares(bb) <==> Bit(bb, j)
    decreases bb
  {
    if bb != 0 {
      var k := Lowest(bb);
      ClearLowestDecreases(bb);
      var rest := bb & (bb - 1);
      ClearLowestAt(bb, k, j);
      SetSquaresAt(rest, j);
      assert SetSquares(bb) == [k] + SetSquares(rest);
    }
  }

  /** SetSquares lists exactly the set squares of the board. */
  lemma SetSquaresExact(bb: bv64)
    ensures forall j: Square :: j in SetSquares(bb) <==> Bit(bb, j)
  {
    forall j: Square ensures j in SetSquares(bb) <==> Bit(bb, j) {
      SetSquaresAt(bb, j);
    }
  }

  /** Every square left after clearing the lowest one lies above it. */
  lemma TailAbove(bb: bv64, x: Square)
    requires bb != 0 && x in SetSquares(bb & (bb - 1))
    ensures Lowest(bb) < x
  {
    var k := Lowest(bb);
    SetSquaresAt(bb & (bb - 1), x);
    ClearLowestAt(bb, k, x);
    if x < k {
      LowClearAt(bb, k, x);
    }
  }

  /** A sequence of squares in strictly ascending order. */
  ghost predicate Ascending(s: seq<Square>) {
    forall i, j :: 0 <= i < j < |s| ==> s[i] < s[j]
  }

  lemma ConsAscending(k: Square, tail: seq<Square>)
    requires Ascending(tail)
    requires forall x :: x in tail ==> k < x
    ensures Ascending([k] + tail)
  {
    var s := [k] + tail;
    forall i, j | 0 <= i < j < |s| ensures s[i] < s[j] {
      assert s[j] == tail[j - 1];
      if i > 0 {
        assert s[i] == tail[i - 1];
      } else {
        assert tail[j - 1] in tail;
      }
    }
  }

  /** SetSquares is strictly ascending: the engine visits squares from a1 towards h8. */
  lemma {:induction false} SetSquaresAscending(bb: bv64)
    ensures Ascending(SetSquares(bb))
    decreases bb
  {
    if bb != 0 {
      ClearLowestDecreases(bb);
      SetSquaresAscending(bb & (bb - 1));
      AscendingStep(bb);
    }
  }

  /** The lowest square goes in front of the squares of the rest, all above it. */
  lemma AscendingStep(bb: bv64)
    requires bb != 0 && Ascending(SetSquares(bb & (bb - 1)))
    ensures Ascending(SetSquares(bb))
  {
    var k, rest := Lowest(bb), bb & (bb - 1);
    assert SetSquares(bb) == [k] + SetSquares(rest);
    forall x | x in SetSquares(rest) ensures k < x {
      TailAbove(bb, x);
    }
    ConsAscending(k, SetSquares(rest));
  }

  /**
   * popCount (Kernighan): each iteration clears the lowest set square, so the
   * count is the number of set squares.
   */
  method PopCount(bb: bv64) returns (count: int)
    ensures count == |SetSquares(bb)|
  {
    count := 0;
    var b := bb;
    while b != 0
      invariant count + |SetSquares(b)| == |SetSquares(bb)|
      decreases b
    {
      count := count + 1;
      ClearLowestDecreases(b);
      b := b & (b - 1);
    }
  }

  /** A board holds at most 64 pieces. */
  lemma SetSquaresAtMost64(bb: bv64)
    ensures |SetSquares(bb)| <= 64
  {
    var s := SetSquares(bb);
    SetSquaresAscending(bb);
    if s != [] {
      AscendingFloor(s, |s| - 1);
    }
  }

  /** In a strictly ascending list of squares, the entry at `i` is square `i` or later. */
  lemma {:induction false} AscendingFloor(s: seq<Square>, i: nat)
    requires Ascending(s) && i < |s|
    ensures i <= s[i] as int
  {
    if i > 0 {
      AscendingFloor(s, i - 1);
      assert s[i - 1] < s[i];
    }
  }

  // Line masks (chessprogramming "On an empty board, by calculation")

  /** rankMask: the eight squares on the rank of `sq`. */
  function RankMask(sq: Square): (r: bv64)
    ensures forall j: Square :: Bit(r, j) <==> RankOf(j) == RankOf(sq)
  {
    0xff << (sq & 56)
  }

  /** fileMask: the eight squares on the file of `sq`. */
  function FileMask(sq: Square): (r: bv64)
    ensures forall j: Square :: Bit(r, j) <==> FileOf(j) == FileOf(sq)
  {
    0x0101010101010101 << (sq & 7)
  }

  /** C's `x >> 31` on a 32-bit int: all ones for a negative value, zero otherwise. */
  function SignSmear(x: bv32): bv32 {
    if x >> 31 == 1 then 0xFFFF_FFFF else 0
  }

  /**
   * diagonalMask: the a1-h8-direction diagonal through `sq`. The signed
   * difference `diag` is split into a north and a south shift, one of which
   * the sign tricks clamp to zero.
   */
  function DiagonalMask(sq: Square): (r: bv64)
    ensures forall j: Square :: Bit(r, j) <==> FileOf(j) + RankOf(sq) == FileOf(sq) + RankOf(j)
  {
    var diag: bv32 := 8 * ((sq & 7) as bv32) - ((sq & 56) as bv32);
    var north := -diag & SignSmear(diag);
    var south := diag & SignSmear(-diag);
    assert north <= 56 && south <= 56;
    (0x8040201008040201 >> south) << north
  }

  /** antiDiagMask: the h1-a8-direction diagonal through `sq`. */
  function AntiDiagMask(sq: Square): (r: bv64)
    ensures forall j: Square :: Bit(r, j) <==> FileOf(j) + RankOf(j) == FileOf(sq) + RankOf(sq)
  {
    var diag: bv32 := 56 - 8 * ((sq & 7) as bv32) - ((sq & 56) as bv32);
    var north := -diag & SignSmear(diag);
    var south := diag & SignSmear(-diag);
    assert north <= 56 && south <= 56;
    (0x0102040810204080 >> south) << north
  }

  /** `-2UL << sq`: every square above `sq`. */
  function Above(sq: Square): (r: bv64)
    ensures forall j: Square :: Bit(r, j) <==> sq < j
  {
    0xFFFF_FFFF_FFFF_FFFE << sq
  }

  /** `(1UL << sq) - 1`: every square below `sq`. */
  function Below(sq: Square): (r: bv64)
    ensures forall j: Square :: Bit(r, j) <==> j < sq
  {
    ((1 as bv64) << sq) - 1
  }

  // The eight rays. Positive rays (north, east, north-east, north-west) hold
  // squares above `sq`; negative rays hold squares below it.

  function NorthRay(sq: Square): (r: bv64)
    ensures forall j: Square :: Bit(r, j) <==> FileOf(j) == FileOf(sq) && sq < j
  {
    FileMask(sq) & Above(sq)
  }

  function SouthRay(sq: Square): (r: bv64)
    ensures forall j: Square :: Bit(r, j) <==> FileOf(j) == FileOf(sq) && j < sq
  {
    FileMask(sq) & Below(sq)
  }

  function EastRay(sq: Square): (r: bv64)
    ensures forall j: Square :: Bit(r, j) <==> RankOf(j) == RankOf(sq) && sq < j
  {
    RankMask(sq) & Above(sq)
  }

  function WestRay(sq: Square): (r: bv64)
    ensures forall j: Square :: Bit(r, j) <==> RankOf(j) == RankOf(sq) && j < sq
  {
    RankMask(sq) & Below(sq)
  }

  function NorthEastRay(sq: Square): (r: bv64)
    ensures forall j: Square :: Bit(r, j) <==> FileOf(j) + RankOf(sq) == FileOf(sq) + RankOf(j) && sq < j
  {
    DiagonalMask(sq) & Above(sq)
  }

  function SouthWestRay(sq: Square): (r: bv64)
    ensures forall j: Square :: Bit(r, j) <==> FileOf(j) + RankOf(sq) == FileOf(sq) + RankOf(j) && j < sq
  {
    DiagonalMask(sq) & Below(sq)
  }

  function NorthWestRay(sq: Square): (r: bv64)
    ensures forall j: Square :: Bit(r, j) <==> FileOf(j) + RankOf(j) == FileOf(sq) + RankOf(sq) && sq < j
  {
    AntiDiagMask(sq) & Above(sq)
  }

  function SouthEastRay(sq: Square): (r: bv64)
    ensures forall j: Square :: Bit(r, j) <==> FileOf(j) + RankOf(j) == FileOf(sq) + RankOf(sq) && j < sq
  {
    AntiDiagMask(sq) & Below(sq)
  }

  // make_move

  /** Index of the colour-union board of the mover's side (`whiteAll + colorOffset * (piece / colorOffset)`). */
  function OwnAll(piece: PieceIndex): (i: PieceIndex)
    ensures i == if piece < ColorOffset then WhiteAll else BlackAll
  {
    WhiteAll + ColorOffset * (piece / ColorOffset)
  }

  /** First index of the opponent's seven boards (`colorOffset * whiteToMove`). */
  function EnemyBase(piece: PieceIndex): (i: nat)
    ensures i == if piece < ColorOffset then BlackPawns else WhitePawns
  {
    var whiteToMove := if piece / ColorOffset == 0 then 1 else 0;
    ColorOffset * whiteToMove
  }

  /** Board `i` belongs to the opponent of the side moving `piece` (its six piece boards and its union). */
  predicate IsEnemyBoard(piece: PieceIndex, i: PieceIndex) {
    EnemyBase(piece) <= i < EnemyBase(piece) + ColorOffset
  }

  /**
   * The board that receives the destination square: a pawn reaching the last
   * rank becomes a queen, any other move lands on the mover's own board.
   */
  function Landing(m: Move): (p: PieceIndex)
    ensures p == if m.piece == WhitePawns && RankOf(m.to) == 7 then WhiteQueens
                 else if m.piece == BlackPawns && RankOf(m.to) == 0 then BlackQueens
                 else m.piece
  {
    if m.piece == WhitePawns && SquareBit(m.to) & RankMask(56) != 0 then WhiteQueens
    else if m.piece == BlackPawns && SquareBit(m.to) & RankMask(0) != 0 then BlackQueens
    else m.piece
  }

  /**
   * The four assertions of make_move: the origin is occupied and the
   * destination free on the mover's board and on its colour board. The
   * colour board is read after the origin was cleared on the mover's board,
   * so a move of a colour-union board itself always fails them.
   */
  predicate MoveAllowed(B: Board, m: Move) {
    m.piece != WhiteAll && m.piece != BlackAll &&
    Bit(B[m.piece], m.from) && !Bit(B[m.piece], m.to) &&
    Bit(B[OwnAll(m.piece)], m.from) && !Bit(B[OwnAll(m.piece)], m.to)
  }

  /**
   * make_move's first block: the origin is cleared on the mover's board and
   * the destination set on the landing board.
   */
  function Landed(B: Board, m: Move): Board {
    var moved := B[m.piece := ClearSquare(B[m.piece], m.from)];
    moved[Landing(m) := SetSquare(moved[Landing(m)], m.to)]
  }

  /**
   * make_move's first two blocks: Landed, then the square moved on the
   * mover's colour board.
   */
  function Relocate(B: Board, m: Move): Board {
    Landed(B, m)[OwnAll(m.piece) := SetSquare(ClearSquare(B[OwnAll(m.piece)], m.from), m.to)]
  }

  /** The second half of make_move: the destination is cleared on the first `n` enemy boards. */
  function Capture(C: Board, piece: PieceIndex, to: Square, n: nat): Board {
    seq(NumPieceTypes, i requires 0 <= i < NumPieceTypes =>
      if EnemyBase(piece) <= i < EnemyBase(piece) + n then ClearSquare(C[i], to) else C[i])
  }

  /** Board `i` holds one kind of piece (it is not a colour-union board). */
  predicate IsPieceBoard(i: PieceIndex) {
    i != WhiteAll && i != BlackAll
  }

  /**
   * Square `j` is described consistently: at most one piece board holds it,
   * and each colour-union board holds it exactly when one of that colour's
   * six piece boards does.
   */
  predicate ConsistentAt(B: Board, j: Square) {
    && (forall p: PieceIndex, q: PieceIndex ::
          IsPieceBoard(p) && IsPieceBoard(q) && Bit(B[p], j) && Bit(B[q], j) ==> p == q)
    && (Bit(B[WhiteAll], j) <==> exists p: PieceIndex :: p < WhiteAll && Bit(B[p], j))
    && (Bit(B[BlackAll], j) <==> exists p: PieceIndex :: BlackPawns <= p < BlackAll && Bit(B[p], j))
  }

  /** A position as a FEN string describes it: every square consistent. */
  ghost predicate WellFormed(B: Board) {
    forall j: Square :: ConsistentAt(B, j)
  }

  /** One more iteration of make_move's capture loop clears the destination on one more enemy board. */
  lemma CaptureStep(C: Board, piece: PieceIndex, to: Square, n: nat)
    requires n < ColorOffset
    ensures EnemyBase(piece) + n < NumPieceTypes
    ensures Capture(C, piece, to, n + 1) ==
      Capture(C, piece, to, n)[EnemyBase(piece) + n := ClearSquare(Capture(C, piece, to, n)[EnemyBase(piece) + n], to)]
  {
  }

  /**
   * The position after `m`, as make_move leaves it: Relocate, then the
   * destination cleared on all seven enemy boards.
   */
  function ApplyMove(B: Board, m: Move): Board
    requires MoveAllowed(B, m)
  {
    Capture(Relocate(B, m), m.piece, m.to, ColorOffset)
  }

  /** `r` holds, board by board, what make_move writes for `m` on `B`. */
  ghost predicate MoveBoards(B: Board, m: Move, r: Board) {
    && r[m.piece] == (if Landing(m) == m.piece then SetSquare(ClearSquare(B[m.piece], m.from), m.to)
                      else ClearSquare(B[m.piece], m.from))
    && (Landing(m) != m.piece ==> r[Landing(m)] == SetSquare(B[Landing(m)], m.to))
    && r[OwnAll(m.piece)] == SetSquare(ClearSquare(B[OwnAll(m.piece)], m.from), m.to)
    && (forall i: PieceIndex :: IsEnemyBoard(m.piece, i) ==> r[i] == ClearSquare(B[i], m.to))
    && (forall i: PieceIndex ::
          (!IsEnemyBoard(m.piece, i) && i != m.piece && i != Landing(m) && i != OwnAll(m.piece)) ==> r[i] == B[i])
  }

  lemma ApplyMoveMover(B: Board, m: Move)
    requires MoveAllowed(B, m)
    ensures ApplyMove(B, m)[m.piece] ==
      if Landing(m) == m.piece then SetSquare(ClearSquare(B[m.piece], m.from), m.to)
      else ClearSquare(B[m.piece], m.from)
  {
  }

  lemma ApplyMoveLanding(B: Board, m: Move)
    requires MoveAllowed(B, m) && Landing(m) != m.piece
    ensures ApplyMove(B, m)[Landing(m)] == SetSquare(B[Landing(m)], m.to)
  {
  }

  lemma ApplyMoveOwnAll(B: Board, m: Move)
    requires MoveAllowed(B, m)
    ensures ApplyMove(B, m)[OwnAll(m.piece)] == SetSquare(ClearSquare(B[OwnAll(m.piece)], m.from), m.to)
  {
  }

  lemma ApplyMoveEnemies(B: Board, m: Move)
    requires MoveAllowed(B, m)
    ensures forall i: PieceIndex :: IsEnemyBoard(m.piece, i) ==> ApplyMove(B, m)[i] == ClearSquare(B[i], m.to)
  {
  }

  lemma ApplyMoveOthers(B: Board, m: Move)
    requires MoveAllowed(B, m)
    ensures forall i: PieceIndex ::
      (!IsEnemyBoard(m.piece, i) && i != m.piece && i != Landing(m) && i != OwnAll(m.piece)) ==> ApplyMove(B, m)[i] == B[i]
  {
  }

  lemma ApplyMoveBoards(B: Board, m: Move)
    requires MoveAllowed(B, m)
    ensures MoveBoards(B, m, ApplyMove(B, m))
  {
    ApplyMoveMover(B, m);
    if Landing(m) != m.piece {
      ApplyMoveLanding(B, m);
    }
    ApplyMoveOwnAll(B, m);
    ApplyMoveEnemies(B, m);
    ApplyMoveOthers(B, m);
  }

  lemma MoverAt(B: Board, m: Move, r: Board, j: Square)
    requires MoveAllowed(B, m) && MoveBoards(B, m, r)
    ensures Bit(r[m.piece], j) <==> (Bit(B[m.piece], j) && j != m.from) || (j == m.to && Landing(m) == m.piece)
  {
    if Landing(m) == m.piece {
      MoveSquareAt(B[m.piece], m.from, m.to, j);
    } else {
      ClearSquareAt(B[m.piece], m.from, j);
    }
  }

  lemma LandingAt(B: Board, m: Move, r: Board, j: Square)
    requires MoveAllowed(B, m) && MoveBoards(B, m, r) && Landing(m) != m.piece
    ensures Bit(r[Landing(m)], j) <==> Bit(B[Landing(m)], j) || j == m.to
  {
    SetSquareAt(B[Landing(m)], m.to, j);
  }

  lemma OwnAllAt(B: Board, m: Move, r: Board, j: Square)
    requires MoveAllowed(B, m) && MoveBoards(B, m, r)
    ensures Bit(r[OwnAll(m.piece)], j) <==> (Bit(B[OwnAll(m.piece)], j) && j != m.from) || j == m.to
  {
    MoveSquareAt(B[OwnAll(m.piece)], m.from, m.to, j);
  }

  lemma EnemyAt(B: Board, m: Move, r: Board, i: PieceIndex, j: Square)
    requires MoveAllowed(B, m) && MoveBoards(B, m, r) && IsEnemyBoard(m.piece, i)
    ensures Bit(r[i], j) <==> Bit(B[i], j) && j != m.to
  {
    ClearSquareAt(B[i], m.to, j);
  }

  lemma MoveBoardsAt(B: Board, m: Move, r: Board, i: PieceIndex, j: Square)
    requires MoveAllowed(B, m) && MoveBoards(B, m, r)
    ensures i == m.piece ==>
      (Bit(r[i], j) <==> (Bit(B[i], j) && j != m.from) || (j == m.to && Landing(m) == m.piece))
    ensures i == Landing(m) && i != m.piece ==>
      (Bit(r[i], j) <==> Bit(B[i], j) || j == m.to)
    ensures i == OwnAll(m.piece) ==>
      (Bit(r[i], j) <==> (Bit(B[i], j) && j != m.from) || j == m.to)
    ensures IsEnemyBoard(m.piece, i) ==>
      (Bit(r[i], j) <==> Bit(B[i], j) && j != m.to)
    ensures !IsEnemyBoard(m.piece, i) && i != m.piece && i != Landing(m) && i != OwnAll(m.piece) ==>
      r[i] == B[i]
  {
    hide Bit, MoveBoards;
    if i == m.piece {
      MoverAt(B, m, r, j);
    } else if i == Landing(m) {
      LandingAt(B, m, r, j);
    } else if i == OwnAll(m.piece) {
      OwnAllAt(B, m, r, j);
    } else if IsEnemyBoard(m.piece, i) {
      EnemyAt(B, m, r, i, j);
    } else {
      OthersKept(B, m, r, i);
    }
  }

  /** Boards that are neither the mover's, its landing board, its colour board nor an enemy board keep their value. */
  lemma OthersKept(B: Board, m: Move, r: Board, i: PieceIndex)
    requires MoveAllowed(B, m) && MoveBoards(B, m, r)
    requires !IsEnemyBoard(m.piece, i) && i != m.piece && i != Landing(m) && i != OwnAll(m.piece)
    ensures r[i] == B[i]
  {
  }

  /**
   * What make_move does to square `j` of board `i`: the mover leaves the
   * origin, the landing board and the colour board gain the destination,
   * every enemy board loses it (a capture), and no other board changes.
   */
  lemma ApplyMoveAt(B: Board, m: Move, i: PieceIndex, j: Square)
    requires MoveAllowed(B, m)
    ensures i == m.piece ==>
      (Bit(ApplyMove(B, m)[i], j) <==> (Bit(B[i], j) && j != m.from) || (j == m.to && Landing(m) == m.piece))
    ensures i == Landing(m) && i != m.piece ==>
      (Bit(ApplyMove(B, m)[i], j) <==> Bit(B[i], j) || j == m.to)
    ensures i == OwnAll(m.piece) ==>
      (Bit(ApplyMove(B, m)[i], j) <==> (Bit(B[i], j) && j != m.from) || j == m.to)
    ensures IsEnemyBoard(m.piece, i) ==>
      (Bit(ApplyMove(B, m)[i], j) <==> Bit(B[i], j) && j != m.to)
    ensures !IsEnemyBoard(m.piece, i) && i != m.piece && i != Landing(m) && i != OwnAll(m.piece) ==>
      ApplyMove(B, m)[i] == B[i]
  {
    ApplyMoveBoards(B, m);
    MoveBoardsAt(B, m, ApplyMove(B, m), i, j);
  }

  /** make_move's first block, on the mover's board (and the queen board on promotion). */
  method MovePiece(B: array<bv64>, m: Move)
    requires B.Length == NumPieceTypes
    requires Bit(B[m.piece], m.from) && !Bit(B[m.piece], m.to)
    modifies B
    ensures B[..] == Landed(old(B[..]), m)
  {
    var toBit := SquareBit(m.to);
    B[m.piece] := ClearSquare(B[m.piece], m.from);
    if m.piece == WhitePawns && toBit & RankMask(56) != 0 {
      B[WhiteQueens] := SetSquare(B[WhiteQueens], m.to);
    } else if m.piece == BlackPawns && toBit & RankMask(0) != 0 {
      B[BlackQueens] := SetSquare(B[BlackQueens], m.to);
    } else {
      B[m.piece] := SetSquare(B[m.piece], m.to);
    }
  }

  /**
   * make_move's colour-board update `color_board - from_bit + to_bit`: with
   * the origin occupied and the destination free (the block's two checks)
   * the arithmetic moves the square without borrow or carry.
   */
  method ShiftColourSquare(colorBoard: bv64, fromBit: bv64, toBit: bv64, from: Square, to: Square) returns (moved: bv64)
    requires fromBit == SquareBit(from) && toBit == SquareBit(to)
    requires Bit(colorBoard, from) && !Bit(colorBoard, to)
    ensures moved == SetSquare(ClearSquare(colorBoard, from), to)
  {
    var lifted := colorBoard - fromBit;
    moved := lifted + toBit;
    ColourArithmetic(colorBoard, fromBit, toBit, from, to, lifted, moved);
  }

  /** make_move's capture loop: the destination is cleared on all seven enemy boards. */
  method CaptureEnemies(B: array<bv64>, m: Move)
    requires B.Length == NumPieceTypes
    modifies B
    ensures B[..] == Capture(old(B[..]), m.piece, m.to, ColorOffset)
  {
    ghost var C: Board := B[..];
    var whiteToMove: nat := if m.piece / ColorOffset == 0 then 1 else 0;
    for i := 0 to ColorOffset
      invariant B[..] == Capture(C, m.piece, m.to, i)
    {
      CaptureStep(C, m.piece, m.to, i);
      B[i + ColorOffset * whiteToMove] := ClearSquare(B[i + ColorOffset * whiteToMove], m.to);
    }
  }

  /**
   * make_move on the fourteen boards in place: the mover's block, the
   * colour-board block and the capture loop leave exactly ApplyMove of the
   * old position.
   */
  method MakeMove(B: array<bv64>, m: Move)
    requires B.Length == NumPieceTypes && MoveAllowed(B[..], m)
    modifies B
    ensures B[..] == ApplyMove(old(B[..]), m)
  {
    ghost var B0: Board := B[..];
    var whiteToMove: nat := if m.piece / ColorOffset == 0 then 1 else 0;
    MovePiece(B, m);
    var colorBoard := B[WhiteAll + ColorOffset * (1 - whiteToMove)];
    assert colorBoard == B0[OwnAll(m.piece)];
    colorBoard := ShiftColourSquare(colorBoard, SquareBit(m.from), SquareBit(m.to), m.from, m.to);
    B[WhiteAll + ColorOffset * (m.piece / ColorOffset)] := colorBoard;
    assert B[..] == Relocate(B0, m);
    CaptureEnemies(B, m);
  }

  /** Square `j` of board `i` after `m`, as ApplyMoveAt describes it. */
  predicate MovedBit(B: Board, m: Move, i: PieceIndex, j: Square) {
    if i == m.piece then (Bit(B[i], j) && j != m.from) || (j == m.to && Landing(m) == m.piece)
    else if i == Landing(m) then Bit(B[i], j) || j == m.to
    else if i == OwnAll(m.piece) then (Bit(B[i], j) && j != m.from) || j == m.to
    else if IsEnemyBoard(m.piece, i) then Bit(B[i], j) && j != m.to
    else Bit(B[i], j)
  }

  /** `r` holds, on square `j`, what MovedBit says make_move leaves there. */
  ghost predicate MovedAt(B: Board, m: Move, r: Board, j: Square) {
    forall i: PieceIndex :: Bit(r[i], j) <==> MovedBit(B, m, i, j)
  }

  /** Away from the origin and the destination nothing changes. */
  lemma ConsistentElsewhere(B: Board, m: Move, r: Board, j: Square)
    requires MoveAllowed(B, m) && ConsistentAt(B, j) && MovedAt(B, m, r, j)
    requires j != m.from && j != m.to
    ensures ConsistentAt(r, j)
  {
    assert forall i: PieceIndex :: Bit(r[i], j) <==> Bit(B[i], j);
  }

  /** The origin is left empty on every board of both colours. */
  lemma ConsistentAtOrigin(B: Board, m: Move, r: Board)
    requires MoveAllowed(B, m) && ConsistentAt(B, m.from) && MovedAt(B, m, r, m.from)
    ensures ConsistentAt(r, m.from)
  {
    assert m.from != m.to;
    forall p: PieceIndex | IsPieceBoard(p)
      ensures !Bit(r[p], m.from)
    {
      if p != m.piece && Bit(B[p], m.from) {
        assert false;
      }
    }
    if m.piece < ColorOffset {
      assert !Bit(B[BlackAll], m.from);
    } else {
      assert !Bit(B[WhiteAll], m.from);
    }
  }

  /** The destination is held by the landing board alone, and by the mover's colour board. */
  lemma ConsistentAtDestination(B: Board, m: Move, r: Board)
    requires MoveAllowed(B, m) && ConsistentAt(B, m.to) && MovedAt(B, m, r, m.to)
    ensures ConsistentAt(r, m.to)
  {
    assert m.from != m.to;
    forall p: PieceIndex | IsPieceBoard(p)
      ensures Bit(r[p], m.to) <==> p == Landing(m)
    {
      if p != Landing(m) && !IsEnemyBoard(m.piece, p) && Bit(B[p], m.to) {
        assert false;
      }
    }
    if m.piece < ColorOffset {
      assert Landing(m) < WhiteAll && Bit(r[Landing(m)], m.to);
    } else {
      assert BlackPawns <= Landing(m) < BlackAll && Bit(r[Landing(m)], m.to);
    }
  }

  lemma ConsistentAfter(B: Board, m: Move, r: Board, j: Square)
    requires MoveAllowed(B, m) && WellFormed(B) && MovedAt(B, m, r, j)
    ensures ConsistentAt(r, j)
  {
    if j == m.from {
      ConsistentAtOrigin(B, m, r);
    } else if j == m.to {
      ConsistentAtDestination(B, m, r);
    } else {
      ConsistentElsewhere(B, m, r, j);
    }
  }

  /** make_move keeps a well-formed position well-formed. */
  lemma MovePreservesWellFormed(B: Board, m: Move)
    requires MoveAllowed(B, m) && WellFormed(B)
    ensures WellFormed(ApplyMove(B, m))
  {
    forall j: Square
      ensures ConsistentAt(ApplyMove(B, m), j)
    {
      forall i: PieceIndex
        ensures Bit(ApplyMove(B, m)[i], j) <==> MovedBit(B, m, i, j)
      {
        ApplyMoveAt(B, m, i, j);
      }
      ConsistentAfter(B, m, ApplyMove(B, m), j);
    }
  }
}
