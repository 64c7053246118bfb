/**
 * The pseudo-legal generators of the bitboard engine
 * (lichess_bot_refactored/src/ChessEngine.c): knight, king and pawn targets
 * from shifted boards, and the sliding pieces, whose rays are cut at the
 * nearest blocker.
 */
module ChessEngine {
  import opened DataStructs
  import opened BoardManipulations

  // Shifts by the constant amounts the generators use, one square at a time.

  lemma Up8At(b: bv64, j: Square)
    ensures Bit(b << 8, j) <==> 8 <= j && Bit(b, j - 8)
  {
  }

  lemma Down8At(b: bv64, j: Square)
    ensures Bit(b >> 8, j) <==> j < 56 && Bit(b, j + 8)
  {
  }

  lemma Up16At(b: bv64, j: Square)
    ensures Bit(b << 16, j) <==> 16 <= j && Bit(b, j - 16)
  {
  }

  lemma Down16At(b: bv64, j: Square)
    ensures Bit(b >> 16, j) <==> j < 48 && Bit(b, j + 16)
  {
  }

  lemma Up7At(b: bv64, j: Square)
    ensures Bit(b << 7, j) <==> 7 <= j && Bit(b, j - 7)
  {
  }

  lemma Down7At(b: bv64, j: Square)
    ensures Bit(b >> 7, j) <==> j < 57 && Bit(b, j + 7)
  {
  }

  lemma Up9At(b: bv64, j: Square)
    ensures Bit(b << 9, j) <==> 9 <= j && Bit(b, j - 9)
  {
  }

  lemma Down9At(b: bv64, j: Square)
    ensures Bit(b >> 9, j) <==> j < 55 && Bit(b, j + 9)
  {
  }

  /** `x ^ (x & f)`: the squares of `x` that are not on `f`. */
  lemma MaskOffAt(x: bv64, f: bv64, j: Square)
    ensures Bit(x ^ (x & f), j) <==> Bit(x, j) && !Bit(f, j)
  {
    XorAt(x, x & f, j);
    AndAt(x, f, j);
  }

  // Geometry of files and ranks. Files and ranks are below 8, so the
  // six-bit additions below never wrap.

  predicate OneApart(a: bv6, b: bv6) {
    a + 1 == b || b + 1 == a
  }

  predicate TwoApart(a: bv6, b: bv6) {
    a + 2 == b || b + 2 == a
  }

  predicate Near(a: bv6, b: bv6) {
    a == b || OneApart(a, b)
  }

  /** `j` is a knight's jump away from `sq`: one file and two ranks, or two files and one rank. */
  predicate KnightJump(sq: Square, j: Square) {
    || (OneApart(FileOf(sq), FileOf(j)) && TwoApart(RankOf(sq), RankOf(j)))
    || (TwoApart(FileOf(sq), FileOf(j)) && OneApart(RankOf(sq), RankOf(j)))
  }

  /** `j` is a king's step away from `sq`: another square within one file and one rank. */
  predicate KingStep(sq: Square, j: Square) {
    j != sq && Near(FileOf(sq), FileOf(j)) && Near(RankOf(sq), RankOf(j))
  }

  /** The side's colour-union board, `BBoard[whiteAll + !whiteToMove * colorOffset]`. */
  function ColourAll(white: bool): (i: PieceIndex)
    ensures i == if white then WhiteAll else BlackAll
  {
    WhiteAll + (if white then 0 else 1) * ColorOffset
  }

  // Knight

  /** `(knight >> 1) & not_h_file | (knight << 1) & not_a_file`: one file to either side. */
  function SideSteps1(knight: bv64): bv64 {
    ((knight >> 1) & NotHFile) | ((knight << 1) & NotAFile)
  }

  /** `(knight >> 2) & not_hg_file | (knight << 2) & not_ab_file`: two files to either side. */
  function SideSteps2(knight: bv64): bv64 {
    ((knight >> 2) & NotHgFile) | ((knight << 2) & NotAbFile)
  }

  lemma SideSteps1At(sq: Square, x: Square)
    ensures Bit(SideSteps1(SquareBit(sq)), x) <==> RankOf(x) == RankOf(sq) && OneApart(FileOf(sq), FileOf(x))
  {
  }

  lemma SideSteps2At(sq: Square, x: Square)
    ensures Bit(SideSteps2(SquareBit(sq)), x) <==> RankOf(x) == RankOf(sq) && TwoApart(FileOf(sq), FileOf(x))
  {
  }

  /** The knight pattern before friendly squares are removed. */
  function KnightTargets(sq: Square): bv64 {
    var h1 := SideSteps1(SquareBit(sq));
    var h2 := SideSteps2(SquareBit(sq));
    (h1 << 16) | (h1 >> 16) | (h2 << 8) | (h2 >> 8)
  }

  lemma KnightShifts(sq: Square, j: Square)
    ensures Bit(KnightTargets(sq), j) <==>
      || (16 <= j && Bit(SideSteps1(SquareBit(sq)), j - 16))
      || (j < 48 && Bit(SideSteps1(SquareBit(sq)), j + 16))
      || (8 <= j && Bit(SideSteps2(SquareBit(sq)), j - 8))
      || (j < 56 && Bit(SideSteps2(SquareBit(sq)), j + 8))
  {
    var h1 := SideSteps1(SquareBit(sq));
    var h2 := SideSteps2(SquareBit(sq));
    OrAt((h1 << 16) | (h1 >> 16) | (h2 << 8), h2 >> 8, j);
    OrAt((h1 << 16) | (h1 >> 16), h2 << 8, j);
    OrAt(h1 << 16, h1 >> 16, j);
    Up16At(h1, j);
    Down16At(h1, j);
    Up8At(h2, j);
    Down8At(h2, j);
  }

  /** The knight pattern is exactly the knight's jumps, with no wrap across the board's edge. */
  lemma KnightTargetsAt(sq: Square, j: Square)
    ensures Bit(KnightTargets(sq), j) <==> KnightJump(sq, j)
  {
    KnightShifts(sq, j);
    SideSteps1At(sq, j - 16);
    SideSteps1At(sq, j + 16);
    SideSteps2At(sq, j - 8);
    SideSteps2At(sq, j + 8);
  }

  /** generateKnightMoves: the knight's jumps that do not land on a friendly piece. */
  function KnightMoves(sq: Square, B: Board, whiteToMove: bool): (r: bv64)
    ensures forall j: Square :: Bit(r, j) <==> KnightJump(sq, j) && !Bit(B[ColourAll(whiteToMove)], j)
  {
    var moveSet := KnightTargets(sq);
    var friendly := B[ColourAll(whiteToMove)];
    assert forall j: Square :: Bit(moveSet ^ (moveSet & friendly), j) <==> KnightJump(sq, j) && !Bit(friendly, j) by {
      forall j: Square ensures Bit(moveSet ^ (moveSet & friendly), j) <==> KnightJump(sq, j) && !Bit(friendly, j) {
        KnightTargetsAt(sq, j);
        MaskOffAt(moveSet, friendly, j);
      }
    }
    moveSet ^ (moveSet & friendly)
  }

  // King

  /** `king | l1 | r1`: the king's square and one file to either side. */
  function KingRow(sq: Square): bv64 {
    SquareBit(sq) | SideSteps1(SquareBit(sq))
  }

  lemma KingRowAt(sq: Square, x: Square)
    ensures Bit(KingRow(sq), x) <==> RankOf(x) == RankOf(sq) && Near(FileOf(sq), FileOf(x))
  {
    OrAt(SquareBit(sq), SideSteps1(SquareBit(sq)), x);
    SideSteps1At(sq, x);
  }

  /** The king pattern before friendly squares are removed. */
  function KingTargets(sq: Square): bv64 {
    var h1 := KingRow(sq);
    SquareBit(sq) ^ (h1 | (h1 << 8) | (h1 >> 8))
  }

  lemma KingShifts(sq: Square, j: Square)
    ensures Bit(KingTargets(sq), j) <==>
      j != sq &&
      (|| Bit(KingRow(sq), j)
       || (8 <= j && Bit(KingRow(sq), j - 8))
       || (j < 56 && Bit(KingRow(sq), j + 8)))
  {
    var h1 := KingRow(sq);
    XorAt(SquareBit(sq), h1 | (h1 << 8) | (h1 >> 8), j);
    OrAt(h1 | (h1 << 8), h1 >> 8, j);
    OrAt(h1, h1 << 8, j);
    Up8At(h1, j);
    Down8At(h1, j);
    KingRowAt(sq, j);
  }

  /** The king pattern is exactly the king's steps, without its own square and with no wrap. */
  lemma KingTargetsAt(sq: Square, j: Square)
    ensures Bit(KingTargets(sq), j) <==> KingStep(sq, j)
  {
    KingShifts(sq, j);
    KingRowAt(sq, j);
    KingRowAt(sq, j - 8);
    KingRowAt(sq, j + 8);
  }

  /** generateKingMoves: the king's steps that do not land on a friendly piece (castling is not generated). */
  function KingMoves(sq: Square, B: Board, whiteToMove: bool): (r: bv64)
    ensures forall j: Square :: Bit(r, j) <==> KingStep(sq, j) && !Bit(B[ColourAll(whiteToMove)], j)
  {
    var moveSet := KingTargets(sq);
    var friendly := B[ColourAll(whiteToMove)];
    assert forall j: Square :: Bit(moveSet ^ (moveSet & friendly), j) <==> KingStep(sq, j) && !Bit(friendly, j) by {
      forall j: Square ensures Bit(moveSet ^ (moveSet & friendly), j) <==> KingStep(sq, j) && !Bit(friendly, j) {
        KingTargetsAt(sq, j);
        MaskOffAt(moveSet, friendly, j);
      }
    }
    moveSet ^ (moveSet & friendly)
  }

  // Pawns

  /** `~(white | black)`: the squares no piece stands on. */
  function EmptySquares(white: bv64, black: bv64): bv64 {
    !(white | black)
  }

  lemma EmptySquaresAt(white: bv64, black: bv64, j: Square)
    ensures Bit(EmptySquares(white, black), j) <==> !Bit(white, j) && !Bit(black, j)
  {
    var occupied := white | black;
    NotAt(occupied, j);
    OrAt(white, black, j);
  }

  const Rank4: bv64 := 0x00000000FF000000
  const Rank5: bv64 := 0x000000FF00000000

  lemma RankConstantsAt(j: Square)
    ensures Bit(Rank4, j) <==> RankOf(j) == 3
    ensures Bit(Rank5, j) <==> RankOf(j) == 4
  {
  }

  /** wSinglePushTargets: every pawn one rank up, onto an empty square. */
  function WSinglePushTargets(wpawns: bv64, empty: bv64): bv64 {
    (wpawns << 8) & empty
  }

  lemma WSinglePushAt(wpawns: bv64, empty: bv64, j: Square)
    ensures Bit(WSinglePushTargets(wpawns, empty), j) <==> 8 <= j && Bit(wpawns, j - 8) && Bit(empty, j)
  {
    hide Bit;
    AndAt(wpawns << 8, empty, j);
    Up8At(wpawns, j);
  }

  /** wDoublePushTargets: two ranks up onto rank 4, through an empty square. */
  function WDoublePushTargets(wpawns: bv64, empty: bv64): bv64 {
    (WSinglePushTargets(wpawns, empty) << 8) & empty & Rank4
  }

  /** The second step of the double push: one rank further up, onto an empty square of rank 4. */
  lemma WSecondStepAt(wpawns: bv64, empty: bv64, j: Square)
    ensures Bit(WDoublePushTargets(wpawns, empty), j) <==>
      RankOf(j) == 3 && Bit(empty, j) && Bit(WSinglePushTargets(wpawns, empty), j - 8)
  {
    var singlePushes := WSinglePushTargets(wpawns, empty);
    var up := singlePushes << 8;
    var landed := up & empty;
    AndAt(landed, Rank4, j);
    AndAt(up, empty, j);
    Up8At(singlePushes, j);
    RankConstantsAt(j);
  }

  lemma WDoublePushAt(wpawns: bv64, empty: bv64, j: Square)
    ensures Bit(WDoublePushTargets(wpawns, empty), j) <==>
      (RankOf(j) == 3 && Bit(empty, j) && Bit(empty, j - 8) && Bit(wpawns, j - 16))
  {
    WSecondStepAt(wpawns, empty, j);
    var below := j - 8;
    if RankOf(j) == 3 {
      assert 8 <= below && below - 8 == j - 16;
    }
    WSinglePushAt(wpawns, empty, below);
  }

  /** wAttackTargets: one rank up and one file to either side, onto an enemy piece. */
  function WAttackTargets(wpawns: bv64, enemy: bv64): bv64 {
    (((wpawns << 7) & NotHFile) | ((wpawns << 9) & NotAFile)) & enemy
  }

  lemma WAttackAt(wpawns: bv64, enemy: bv64, j: Square)
    ensures Bit(WAttackTargets(wpawns, enemy), j) <==>
      (Bit(enemy, j) && ((7 <= j && FileOf(j) != 7 && Bit(wpawns, j - 7)) || (9 <= j && FileOf(j) != 0 && Bit(wpawns, j - 9))))
  {
    var up7 := wpawns << 7;
    var up9 := wpawns << 9;
    var west := up7 & NotHFile;
    var east := up9 & NotAFile;
    var both := west | east;
    AndAt(both, enemy, j);
    OrAt(west, east, j);
    AndAt(up7, NotHFile, j);
    AndAt(up9, NotAFile, j);
    Up7At(wpawns, j);
    Up9At(wpawns, j);
    FileMasksExact(j);
  }

  /** bSinglePushTargets: every pawn one rank down, onto an empty square. */
  function BSinglePushTargets(bpawns: bv64, empty: bv64): bv64 {
    (bpawns >> 8) & empty
  }

  lemma BSinglePushAt(bpawns: bv64, empty: bv64, j: Square)
    ensures Bit(BSinglePushTargets(bpawns, empty), j) <==> j < 56 && Bit(bpawns, j + 8) && Bit(empty, j)
  {
    Down8At(bpawns, j);
    AndAt(bpawns >> 8, empty, j);
  }

  /** bDoublePushTargets: two ranks down onto rank 5, through an empty square. */
  function BDoublePushTargets(bpawns: bv64, empty: bv64): bv64 {
    (BSinglePushTargets(bpawns, empty) >> 8) & empty & Rank5
  }

  /** The second step of the double push: one rank further down, onto an empty square of rank 5. */
  lemma BSecondStepAt(bpawns: bv64, empty: bv64, j: Square)
    ensures Bit(BDoublePushTargets(bpawns, empty), j) <==>
      RankOf(j) == 4 && Bit(empty, j) && Bit(BSinglePushTargets(bpawns, empty), j + 8)
  {
    var singlePushes := BSinglePushTargets(bpawns, empty);
    var down := singlePushes >> 8;
    var landed := down & empty;
    AndAt(landed, Rank5, j);
    AndAt(down, empty, j);
    Down8At(singlePushes, j);
    RankConstantsAt(j);
  }

  lemma BDoublePushAt(bpawns: bv64, empty: bv64, j: Square)
    ensures Bit(BDoublePushTargets(bpawns, empty), j) <==>
      (RankOf(j) == 4 && Bit(empty, j) && Bit(empty, j + 8) && Bit(bpawns, j + 16))
  {
    BSecondStepAt(bpawns, empty, j);
    var above := j + 8;
    if RankOf(j) == 4 {
      assert above < 56 && above + 8 == j + 16;
    }
    BSinglePushAt(bpawns, empty, above);
  }

  /** bAttackTargets: one rank down and one file to either side, onto an enemy piece. */
  function BAttackTargets(bpawns: bv64, enemy: bv64): bv64 {
    (((bpawns >> 7) & NotAFile) | ((bpawns >> 9) & NotHFile)) & enemy
  }

  lemma BAttackAt(bpawns: bv64, enemy: bv64, j: Square)
    ensures Bit(BAttackTargets(bpawns, enemy), j) <==>
      (Bit(enemy, j) && ((j < 57 && FileOf(j) != 0 && Bit(bpawns, j + 7)) || (j < 55 && FileOf(j) != 7 && Bit(bpawns, j + 9))))
  {
    var down7 := bpawns >> 7;
    var down9 := bpawns >> 9;
    var east := down7 & NotAFile;
    var west := down9 & NotHFile;
    var both := east | west;
    AndAt(both, enemy, j);
    OrAt(east, west, j);
    AndAt(down7, NotAFile, j);
    AndAt(down9, NotHFile, j);
    Down7At(bpawns, j);
    Down9At(bpawns, j);
    FileMasksExact(j);
  }

  // Square geometry of the pawn shifts.

  lemma WhitePushGeometry(sq: Square, j: Square)
    ensures (8 <= j && j - 8 == sq) <==> (sq < 56 && j == sq + 8)
    ensures (RankOf(j) == 3 && j - 16 == sq) <==> (RankOf(sq) == 1 && j == sq + 16)
  {
  }

  lemma WhiteAttackGeometry(sq: Square, j: Square)
    ensures ((7 <= j && FileOf(j) != 7 && j - 7 == sq) || (9 <= j && FileOf(j) != 0 && j - 9 == sq)) <==>
      (RankOf(j) == RankOf(sq) + 1 && OneApart(FileOf(sq), FileOf(j)))
  {
  }

  lemma BlackPushGeometry(sq: Square, j: Square)
    ensures (j < 56 && j + 8 == sq) <==> (8 <= sq && j == sq - 8)
    ensures (RankOf(j) == 4 && j + 16 == sq) <==> (RankOf(sq) == 6 && j == sq - 16)
  {
  }

  lemma BlackAttackGeometry(sq: Square, j: Square)
    ensures ((j < 57 && FileOf(j) != 0 && j + 7 == sq) || (j < 55 && FileOf(j) != 7 && j + 9 == sq)) <==>
      (RankOf(j) + 1 == RankOf(sq) && OneApart(FileOf(sq), FileOf(j)))
  {
  }

  /** No piece of either colour stands on `x`. */
  predicate Free(white: bv64, black: bv64, x: Square) {
    !Bit(white, x) && !Bit(black, x)
  }

  /**
   * A white pawn on `sq` may go to `j`: one rank up onto a free square, two
   * ranks up from rank 2 across two free squares, or one rank up diagonally
   * onto a black piece.
   */
  predicate WhitePawnStep(sq: Square, white: bv64, black: bv64, j: Square) {
    WhiteSingleStep(sq, white, black, j) || WhiteDoubleStep(sq, white, black, j) || WhiteCapture(sq, black, j)
  }

  predicate WhiteSingleStep(sq: Square, white: bv64, black: bv64, j: Square) {
    sq < 56 && j == sq + 8 && Free(white, black, j)
  }

  predicate WhiteDoubleStep(sq: Square, white: bv64, black: bv64, j: Square) {
    RankOf(sq) == 1 && j == sq + 16 && Free(white, black, sq + 8) && Free(white, black, j)
  }

  predicate WhiteCapture(sq: Square, black: bv64, j: Square) {
    RankOf(j) == RankOf(sq) + 1 && OneApart(FileOf(sq), FileOf(j)) && Bit(black, j)
  }

  /** The black mirror image of WhitePawnStep: down the board, double steps from rank 7, capturing white pieces. */
  predicate BlackPawnStep(sq: Square, white: bv64, black: bv64, j: Square) {
    BlackSingleStep(sq, white, black, j) || BlackDoubleStep(sq, white, black, j) || BlackCapture(sq, white, j)
  }

  predicate BlackSingleStep(sq: Square, white: bv64, black: bv64, j: Square) {
    8 <= sq && j == sq - 8 && Free(white, black, j)
  }

  predicate BlackDoubleStep(sq: Square, white: bv64, black: bv64, j: Square) {
    RankOf(sq) == 6 && j == sq - 16 && Free(white, black, sq - 8) && Free(white, black, j)
  }

  predicate BlackCapture(sq: Square, white: bv64, j: Square) {
    RankOf(j) + 1 == RankOf(sq) && OneApart(FileOf(sq), FileOf(j)) && Bit(white, j)
  }

  /** `pushSet | attackSet` with `pushSet = single | double`. */
  function Union3(single: bv64, double: bv64, attack: bv64): bv64 {
    (single | double) | attack
  }

  /** The body of generateWhitePawnMoves on the two colour boards. */
  function WhitePawnMoves(sq: Square, white: bv64, black: bv64): bv64 {
    var pawn := SquareBit(sq);
    var empty := EmptySquares(white, black);
    Union3(WSinglePushTargets(pawn, empty), WDoublePushTargets(pawn, empty), WAttackTargets(pawn, black))
  }

  /** The body of generateBlackPawnMoves on the two colour boards. */
  function BlackPawnMoves(sq: Square, white: bv64, black: bv64): bv64 {
    var pawn := SquareBit(sq);
    var empty := EmptySquares(white, black);
    Union3(BSinglePushTargets(pawn, empty), BDoublePushTargets(pawn, empty), BAttackTargets(pawn, white))
  }

  lemma WhiteSingleAt(sq: Square, white: bv64, black: bv64, j: Square)
    ensures Bit(WSinglePushTargets(SquareBit(sq), EmptySquares(white, black)), j) <==>
      WhiteSingleStep(sq, white, black, j)
  {
    WSinglePushAt(SquareBit(sq), EmptySquares(white, black), j);
    EmptySquaresAt(white, black, j);
    WhitePushGeometry(sq, j);
  }

  lemma WhiteDoubleAt(sq: Square, white: bv64, black: bv64, j: Square)
    ensures Bit(WDoublePushTargets(SquareBit(sq), EmptySquares(white, black)), j) <==>
      WhiteDoubleStep(sq, white, black, j)
  {
    WDoublePushAt(SquareBit(sq), EmptySquares(white, black), j);
    EmptySquaresAt(white, black, j);
    EmptySquaresAt(white, black, j - 8);
    WhitePushGeometry(sq, j);
  }

  lemma WhiteCaptureAt(sq: Square, black: bv64, j: Square)
    ensures Bit(WAttackTargets(SquareBit(sq), black), j) <==>
      WhiteCapture(sq, black, j)
  {
    WAttackAt(SquareBit(sq), black, j);
    WhiteAttackGeometry(sq, j);
  }

  lemma BlackSingleAt(sq: Square, white: bv64, black: bv64, j: Square)
    ensures Bit(BSinglePushTargets(SquareBit(sq), EmptySquares(white, black)), j) <==>
      BlackSingleStep(sq, white, black, j)
  {
    BSinglePushAt(SquareBit(sq), EmptySquares(white, black), j);
    EmptySquaresAt(white, black, j);
    BlackPushGeometry(sq, j);
  }

  lemma BlackDoubleAt(sq: Square, white: bv64, black: bv64, j: Square)
    ensures Bit(BDoublePushTargets(SquareBit(sq), EmptySquares(white, black)), j) <==>
      BlackDoubleStep(sq, white, black, j)
  {
    BDoublePushAt(SquareBit(sq), EmptySquares(white, black), j);
    EmptySquaresAt(white, black, j);
    EmptySquaresAt(white, black, j + 8);
    BlackPushGeometry(sq, j);
  }

  lemma BlackCaptureAt(sq: Square, white: bv64, j: Square)
    ensures Bit(BAttackTargets(SquareBit(sq), white), j) <==>
      BlackCapture(sq, white, j)
  {
    BAttackAt(SquareBit(sq), white, j);
    BlackAttackGeometry(sq, j);
  }

  lemma Or3At(a: bv64, b: bv64, c: bv64, j: Square)
    ensures Bit(Union3(a, b, c), j) <==> Bit(a, j) || Bit(b, j) || Bit(c, j)
  {
    OrAt(a | b, c, j);
    OrAt(a, b, j);
  }

  lemma WhitePawnMovesAt(sq: Square, white: bv64, black: bv64, j: Square)
    ensures Bit(WhitePawnMoves(sq, white, black), j) <==> WhitePawnStep(sq, white, black, j)
  {
    var pawn := SquareBit(sq);
    var empty := EmptySquares(white, black);
    var single := WSinglePushTargets(pawn, empty);
    var double := WDoublePushTargets(pawn, empty);
    Or3At(single, double, WAttackTargets(pawn, black), j);
    WhiteSingleAt(sq, white, black, j);
    WhiteDoubleAt(sq, white, black, j);
    WhiteCaptureAt(sq, black, j);
  }

  lemma BlackPawnMovesAt(sq: Square, white: bv64, black: bv64, j: Square)
    ensures Bit(BlackPawnMoves(sq, white, black), j) <==> BlackPawnStep(sq, white, black, j)
  {
    var pawn := SquareBit(sq);
    var empty := EmptySquares(white, black);
    var single := BSinglePushTargets(pawn, empty);
    var double := BDoublePushTargets(pawn, empty);
    Or3At(single, double, BAttackTargets(pawn, white), j);
    BlackSingleAt(sq, white, black, j);
    BlackDoubleAt(sq, white, black, j);
    BlackCaptureAt(sq, white, j);
  }

  /**
   * A pawn of the side to move on `sq` may go to `j` (generatePawnMoves; en
   * passant is not generated).
   */
  predicate PawnStep(sq: Square, B: Board, whiteToMove: bool, j: Square) {
    if whiteToMove then WhitePawnStep(sq, B[WhiteAll], B[BlackAll], j)
    else BlackPawnStep(sq, B[WhiteAll], B[BlackAll], j)
  }

  /** generatePawnMoves: dispatches on the side to move. */
  function PawnMoves(sq: Square, B: Board, whiteToMove: bool): (r: bv64)
    ensures forall j: Square :: Bit(r, j) <==> PawnStep(sq, B, whiteToMove, j)
  {
    var white := B[WhiteAll];
    var black := B[BlackAll];
    if whiteToMove then
      assert forall j: Square :: Bit(WhitePawnMoves(sq, white, black), j) <==> WhitePawnStep(sq, white, black, j) by {
        forall j: Square ensures Bit(WhitePawnMoves(sq, white, black), j) <==> WhitePawnStep(sq, white, black, j) {
          WhitePawnMovesAt(sq, white, black, j);
        }
      }
      WhitePawnMoves(sq, white, black)
    else
      assert forall j: Square :: Bit(BlackPawnMoves(sq, white, black), j) <==> BlackPawnStep(sq, white, black, j) by {
        forall j: Square ensures Bit(BlackPawnMoves(sq, white, black), j) <==> BlackPawnStep(sq, white, black, j) {
          BlackPawnMovesAt(sq, white, black, j);
        }
      }
      BlackPawnMoves(sq, white, black)
  }

  // Sliding pieces

  /** The eight ray functions of board_manipulations.c. */
  datatype Ray = North | South | East | West | NorthEast | SouthWest | NorthWest | SouthEast

  function RayBoard(ray: Ray, sq: Square): bv64 {
    match ray
    case North => NorthRay(sq)
    case South => SouthRay(sq)
    case East => EastRay(sq)
    case West => WestRay(sq)
    case NorthEast => NorthEastRay(sq)
    case SouthWest => SouthWestRay(sq)
    case NorthWest => NorthWestRay(sq)
    case SouthEast => SouthEastRay(sq)
  }

  /** A positive ray runs towards higher square numbers. */
  predicate Positive(ray: Ray) {
    ray.North? || ray.East? || ray.NorthEast? || ray.NorthWest?
  }

  /** `j` shares the ray's line (file, rank, diagonal or anti-diagonal) with `a`. */
  predicate OnLine(ray: Ray, a: Square, j: Square) {
    match ray
    case North | South => FileOf(j) == FileOf(a)
    case East | West => RankOf(j) == RankOf(a)
    case NorthEast | SouthWest => FileOf(j) + RankOf(a) == FileOf(a) + RankOf(j)
    case NorthWest | SouthEast => FileOf(j) + RankOf(j) == FileOf(a) + RankOf(a)
  }

  /** `j` lies past `a` in the ray's direction. */
  predicate Beyond(ray: Ray, a: Square, j: Square) {
    if Positive(ray) then a < j else j < a
  }

  predicate OnRay(ray: Ray, a: Square, j: Square) {
    OnLine(ray, a, j) && Beyond(ray, a, j)
  }

  /** Each ray function holds exactly the squares of its ray. */
  lemma RayBoardAt(ray: Ray, sq: Square, j: Square)
    ensures Bit(RayBoard(ray, sq), j) <==> OnRay(ray, sq, j)
  {
    match ray
    case North => assert Bit(NorthRay(sq), j) <==> FileOf(j) == FileOf(sq) && sq < j;
    case South => assert Bit(SouthRay(sq), j) <==> FileOf(j) == FileOf(sq) && j < sq;
    case East => assert Bit(EastRay(sq), j) <==> RankOf(j) == RankOf(sq) && sq < j;
    case West => assert Bit(WestRay(sq), j) <==> RankOf(j) == RankOf(sq) && j < sq;
    case NorthEast => assert Bit(NorthEastRay(sq), j) <==> FileOf(j) + RankOf(sq) == FileOf(sq) + RankOf(j) && sq < j;
    case SouthWest => assert Bit(SouthWestRay(sq), j) <==> FileOf(j) + RankOf(sq) == FileOf(sq) + RankOf(j) && j < sq;
    case NorthWest => assert Bit(NorthWestRay(sq), j) <==> FileOf(j) + RankOf(j) == FileOf(sq) + RankOf(sq) && sq < j;
    case SouthEast => assert Bit(SouthEastRay(sq), j) <==> FileOf(j) + RankOf(j) == FileOf(sq) + RankOf(sq) && j < sq;
  }

  lemma DiagonalTransitive(sq: Square, b: Square, j: Square)
    requires FileOf(b) + RankOf(sq) == FileOf(sq) + RankOf(b)
    ensures FileOf(j) + RankOf(b) == FileOf(b) + RankOf(j) <==> FileOf(j) + RankOf(sq) == FileOf(sq) + RankOf(j)
  {
  }

  /** Lines are equivalence classes: sharing a line with a point of it means sharing the line. */
  lemma LineTransitive(ray: Ray, sq: Square, b: Square, j: Square)
    requires OnLine(ray, sq, b)
    ensures OnLine(ray, b, j) <==> OnLine(ray, sq, j)
  {
    match ray
    case North | South =>
    case East | West =>
    case NorthEast | SouthWest => DiagonalTransitive(sq, b, j);
    case NorthWest | SouthEast =>
  }

  /** Seen from a square `b` on the ray, the ray from `b` is the part of the ray past `b`. */
  lemma RayFromRay(ray: Ray, sq: Square, b: Square, j: Square)
    requires OnRay(ray, sq, b)
    ensures OnRay(ray, b, j) <==> OnRay(ray, sq, j) && Beyond(ray, b, j)
  {
    LineTransitive(ray, sq, b, j);
  }

  lemma BeyondTransitive(ray: Ray, k: Square, j: Square, b: Square)
    requires Beyond(ray, k, j) && !Beyond(ray, b, j)
    ensures Beyond(ray, k, b)
  {
  }

  /**
   * The slider on `sq` reaches `j` along `ray`: `j` is on the ray and no
   * occupied square lies strictly between them. `j` itself may be occupied.
   */
  ghost predicate Reaches(ray: Ray, sq: Square, occupied: bv64, j: Square) {
    && OnRay(ray, sq, j)
    && forall k: Square :: OnRay(ray, sq, k) && Beyond(ray, k, j) ==> !Bit(occupied, k)
  }

  /** `b` is the first occupied square along the ray. */
  ghost predicate FirstBlocker(ray: Ray, sq: Square, occupied: bv64, b: Square) {
    Reaches(ray, sq, occupied, b) && Bit(occupied, b)
  }

  /** The square a scan in the ray's direction finds: the lowest blocker on a positive ray, the highest on a negative one. */
  predicate Nearest(ray: Ray, blockers: bv64, b: Square) {
    if Positive(ray) then IsLowest(blockers, b) else IsHighest(blockers, b)
  }

  /** `attack & occupied` on the ray's board: the occupied squares of the ray. */
  lemma BlockersAt(ray: Ray, sq: Square, occupied: bv64, attack: bv64, k: Square)
    requires Bit(attack, k) <==> OnRay(ray, sq, k)
    ensures Bit(attack & occupied, k) <==> OnRay(ray, sq, k) && Bit(occupied, k)
  {
    AndAt(attack, occupied, k);
  }

  /** The scan that matches the ray's direction finds the first blocker. */
  lemma NearestIsFirstBlocker(ray: Ray, sq: Square, occupied: bv64, attack: bv64, b: Square)
    requires forall k: Square :: Bit(attack, k) <==> OnRay(ray, sq, k)
    requires Nearest(ray, attack & occupied, b)
    ensures FirstBlocker(ray, sq, occupied, b)
  {
    var blockers := attack & occupied;
    BlockersAt(ray, sq, occupied, attack, b);
    forall k: Square | OnRay(ray, sq, k) && Beyond(ray, k, b) ensures !Bit(occupied, k) {
      BlockersAt(ray, sq, occupied, attack, k);
      if Positive(ray) {
        LowClearAt(blockers, b, k);
      } else {
        HighClearAt(blockers, b, k);
      }
    }
  }

  /** On the ray, the squares not on the blocker's own ray are exactly those reachable. */
  lemma CutAtBlocker(ray: Ray, sq: Square, occupied: bv64, b: Square, j: Square)
    requires FirstBlocker(ray, sq, occupied, b)
    ensures (OnRay(ray, sq, j) && !OnRay(ray, b, j)) <==> Reaches(ray, sq, occupied, j)
  {
    RayFromRay(ray, sq, b, j);
    if OnRay(ray, sq, j) && !Beyond(ray, b, j) {
      forall k: Square | OnRay(ray, sq, k) && Beyond(ray, k, j) ensures !Bit(occupied, k) {
        BeyondTransitive(ray, k, j, b);
      }
      assert Reaches(ray, sq, occupied, j);
    } else if OnRay(ray, sq, j) {
      assert OnRay(ray, sq, b) && Beyond(ray, b, j) && Bit(occupied, b);
      assert !Reaches(ray, sq, occupied, j);
    }
  }

  /** `attack ^ ray(block_sq)` is the ray cut behind its first blocker. */
  lemma CutRayAt(ray: Ray, sq: Square, occupied: bv64, b: Square, attack: bv64, cutter: bv64, j: Square)
    requires FirstBlocker(ray, sq, occupied, b)
    requires Bit(attack, j) <==> OnRay(ray, sq, j)
    requires Bit(cutter, j) <==> OnRay(ray, b, j)
    ensures Bit(attack ^ cutter, j) <==> Reaches(ray, sq, occupied, j)
  {
    XorAt(attack, cutter, j);
    RayFromRay(ray, sq, b, j);
    CutAtBlocker(ray, sq, occupied, b, j);
  }

  /** With no occupied square on it, the whole ray is reachable. */
  lemma UnblockedRayAt(ray: Ray, sq: Square, occupied: bv64, attack: bv64, j: Square)
    requires forall k: Square :: Bit(attack, k) <==> OnRay(ray, sq, k)
    requires attack & occupied == 0
    ensures Bit(attack, j) <==> Reaches(ray, sq, occupied, j)
  {
    forall k: Square | OnRay(ray, sq, k) ensures !Bit(occupied, k) {
      BlockersAt(ray, sq, occupied, attack, k);
    }
  }

  /**
   * The call `ray(sq)` through the function pointer: returns the ray function's
   * board, which holds exactly the squares of the ray.
   */
  method CallRay(ray: Ray, sq: Square) returns (r: bv64)
    ensures forall k: Square :: Bit(r, k) <==> OnRay(ray, sq, k)
  {
    r := RayBoard(ray, sq);
    forall k: Square ensures Bit(r, k) <==> OnRay(ray, sq, k) {
      RayBoardAt(ray, sq, k);
    }
  }

  /** `i % 2 ? bitScanReverse(blockers) : bitScanForward(blockers)`: the highest or the lowest blocker. */
  method ScanBlockers(blockers: bv64, reverse: bool) returns (blockSq: Square)
    requires blockers != 0
    ensures if reverse then IsHighest(blockers, blockSq) else IsLowest(blockers, blockSq)
  {
    if reverse {
      blockSq := BitScanReverse(blockers);
    } else {
      blockSq := BitScanForward(blockers);
    }
  }

  /**
   * One iteration of generateSlidingMoves: the ray from `sq`, cut behind its
   * first blocker, found with bitScanReverse when `reverse` and with
   * bitScanForward otherwise. When the scan matches the ray's direction the
   * result is exactly the reachable squares.
   */
  method BlockedRay(ray: Ray, sq: Square, occupied: bv64, reverse: bool) returns (attack: bv64)
    ensures reverse == !Positive(ray) ==> forall j: Square :: Bit(attack, j) <==> Reaches(ray, sq, occupied, j)
  {
    attack := CallRay(ray, sq);
    ghost var full := attack;
    var blockers := attack & occupied;
    if blockers != 0 {
      var blockSq := ScanBlockers(blockers, reverse);
      var cutter := CallRay(ray, blockSq);
      attack := attack ^ cutter;
      if reverse == !Positive(ray) {
        NearestIsFirstBlocker(ray, sq, occupied, full, blockSq);
        forall j: Square ensures Bit(attack, j) <==> Reaches(ray, sq, occupied, j) {
          CutRayAt(ray, sq, occupied, blockSq, full, cutter, j);
        }
      }
    } else {
      forall j: Square ensures Bit(attack, j) <==> Reaches(ray, sq, occupied, j) {
        UnblockedRayAt(ray, sq, occupied, full, j);
      }
    }
  }

  /** `BBoard[whiteAll] | BBoard[blackAll]`. */
  function Occupied(B: Board): bv64 {
    B[WhiteAll] | B[BlackAll]
  }

  /** The rays alternate positive (even indices) and negative (odd indices), as generateSlidingMoves requires. */
  predicate Alternating(rays: seq<Ray>) {
    forall n :: 0 <= n < |rays| ==> (Positive(rays[n]) <==> n % 2 == 0)
  }

  /** A slider on `sq` reaches `j` along one of the first `count` rays. */
  ghost predicate Slides(rays: seq<Ray>, count: nat, sq: Square, occupied: bv64, j: Square)
    requires count <= |rays|
  {
    exists n :: 0 <= n < count && Reaches(rays[n], sq, occupied, j)
  }

  /**
   * generateSlidingMoves: the union of the four cut rays, without the
   * squares of the mover's own pieces.
   */
  method GenerateSlidingMoves(sq: Square, B: Board, whiteToMove: bool, rays: seq<Ray>) returns (moves: bv64)
    requires |rays| == 4 && Alternating(rays)
    ensures forall j: Square :: Bit(moves, j) <==> Slides(rays, 4, sq, Occupied(B), j) && !Bit(B[ColourAll(whiteToMove)], j)
  {
    var friendlyBoard := B[WhiteAll + (if whiteToMove then 0 else 1) * ColorOffset];
    var occupied := B[WhiteAll] | B[BlackAll];
    var attacks: bv64 := 0;
    forall j: Square ensures !Bit(attacks, j) {
    }
    for i := 0 to 4
      invariant forall j: Square :: Bit(attacks, j) <==> Slides(rays, i, sq, occupied, j)
    {
      hide Bit, Reaches;
      var attack := BlockedRay(rays[i], sq, occupied, i % 2 == 1);
      var joined := attacks | attack;
      forall j: Square ensures Bit(joined, j) <==> Slides(rays, i + 1, sq, occupied, j) {
        OrAt(attacks, attack, j);
        if Reaches(rays[i], sq, occupied, j) {
          assert Slides(rays, i + 1, sq, occupied, j);
        }
      }
      attacks := joined;
    }
    moves := attacks ^ (attacks & friendlyBoard);
    assert occupied == Occupied(B) && friendlyBoard == B[ColourAll(whiteToMove)];
    forall j: Square ensures Bit(moves, j) <==> Slides(rays, 4, sq, Occupied(B), j) && !Bit(B[ColourAll(whiteToMove)], j) {
      hide Bit, Slides;
      MaskOffAt(attacks, friendlyBoard, j);
    }
  }

  /** The bishop's rays: north-east, south-west, north-west, south-east. */
  const BishopRays: seq<Ray> := [NorthEast, SouthWest, NorthWest, SouthEast]

  /** The rook's rays: north, south, east, west. */
  const RookRays: seq<Ray> := [North, South, East, West]

  /** generateBishopMoves: the diagonals up to and including the first piece, less friendly pieces. */
  method GenerateBishopMoves(sq: Square, B: Board, whiteToMove: bool) returns (moves: bv64)
    ensures forall j: Square :: Bit(moves, j) <==> Slides(BishopRays, 4, sq, Occupied(B), j) && !Bit(B[ColourAll(whiteToMove)], j)
  {
    moves := GenerateSlidingMoves(sq, B, whiteToMove, BishopRays);
  }

  /** generateRookMoves: the file and rank up to and including the first piece, less friendly pieces. */
  method GenerateRookMoves(sq: Square, B: Board, whiteToMove: bool) returns (moves: bv64)
    ensures forall j: Square :: Bit(moves, j) <==> Slides(RookRays, 4, sq, Occupied(B), j) && !Bit(B[ColourAll(whiteToMove)], j)
  {
    moves := GenerateSlidingMoves(sq, B, whiteToMove, RookRays);
  }

  /** generateQueenMoves: rook moves and bishop moves together. */
  method GenerateQueenMoves(sq: Square, B: Board, whiteToMove: bool) returns (moves: bv64)
    ensures forall j: Square :: Bit(moves, j) <==>
      (Slides(RookRays, 4, sq, Occupied(B), j) || Slides(BishopRays, 4, sq, Occupied(B), j)) && !Bit(B[ColourAll(whiteToMove)], j)
  {
    var rookMoves := GenerateRookMoves(sq, B, whiteToMove);
    var bishopMoves := GenerateBishopMoves(sq, B, whiteToMove);
    moves := rookMoves | bishopMoves;
    forall j: Square ensures Bit(moves, j) <==> Bit(rookMoves, j) || Bit(bishopMoves, j) {
      OrAt(rookMoves, bishopMoves, j);
    }
  }
}
