/**
 * The first draft of the bitboard engine (lichess_bot_refactored/ChessEngine.c,
 * board_manipulations.c and dataStructs.c). Its bit scan, popCount and
 * evaluateMaterial are the ones modelled in BoardManipulations and
 * MoveGeneration; what is new here is the knight pattern for a whole board
 * of knights, the knight walk that only reports what it finds, the draft's
 * decimal constants and the move_info record.
 */
module EarlyDrafts {
  import opened DataStructs
  import opened BoardManipulations
  import opened ChessEngine
  import opened MoveGeneration
  import opened FenTools

  // dataStructs.c

  /** not_a_file, not_h_file, not_hg_file and not_ab_file as the draft writes them, in decimal. */
  const NotAFileDecimal: bv64 := 18374403900871474942
  const NotHFileDecimal: bv64 := 9187201950435737471
  const NotHgFileDecimal: bv64 := 4557430888798830399
  const NotAbFileDecimal: bv64 := 18229723555195321596

  /** The decimal masks are the hexadecimal ones of the later engine, so they clear the same files. */
  lemma DecimalMasksAgree()
    ensures NotAFileDecimal == NotAFile && NotHFileDecimal == NotHFile
    ensures NotHgFileDecimal == NotHgFile && NotAbFileDecimal == NotAbFile
    ensures forall sq: Square :: Bit(NotAFileDecimal, sq) <==> FileOf(sq) != 0
    ensures forall sq: Square :: Bit(NotHFileDecimal, sq) <==> FileOf(sq) != 7
    ensures forall sq: Square :: Bit(NotHgFileDecimal, sq) <==> FileOf(sq) < 6
    ensures forall sq: Square :: Bit(NotAbFileDecimal, sq) <==> FileOf(sq) >= 2
  {
    forall sq: Square
      ensures Bit(NotAFile, sq) <==> FileOf(sq) != 0
      ensures Bit(NotHFile, sq) <==> FileOf(sq) != 7
      ensures Bit(NotHgFile, sq) <==> FileOf(sq) < 6
      ensures Bit(NotAbFile, sq) <==> FileOf(sq) >= 2
    {
      FileMasksExact(sq);
    }
  }

  /** The draft's copy of LS1Bindex64. */
  const DraftLS1BIndex64: seq<Square> :=
    [ 0, 47,  1, 56, 48, 27,  2, 60] +
    [57, 49, 41, 37, 28, 16,  3, 61] +
    [54, 58, 35, 52, 50, 42, 21, 44] +
    [38, 32, 29, 23, 17, 11,  4, 62] +
    [46, 55, 26, 59, 40, 36, 15, 53] +
    [34, 51, 20, 43, 31, 22, 10, 45] +
    [25, 39, 14, 33, 19, 30,  9, 24] +
    [13, 18,  8, 12,  7,  6,  5, 63]

  /** The draft's table is the engine's table, so it too inverts the de Bruijn hash of every low mask. */
  lemma DraftTableAgrees()
    ensures DraftLS1BIndex64 == LS1BIndex64
    ensures forall k: Square :: DeBruijnSlot(LowMask(k)) < 64 && DraftLS1BIndex64[DeBruijnSlot(LowMask(k))] == k
  {
    forall k: Square ensures DeBruijnSlot(LowMask(k)) < 64 && LS1BIndex64[DeBruijnSlot(LowMask(k))] == k {
      TableInverts(k);
    }
  }

  /**
   * struct move_info: origin and destination squares, the side's base
   * board (0 for White, 7 for Black) and the mover's board, each a C char.
   */
  datatype MoveInfo = MoveInfo(origin: int, destination: int, side: int, piece: int)

  /** The ranges the struct's comments promise for its four chars. */
  predicate ValidMoveInfo(mi: MoveInfo) {
    && 0 <= mi.origin < 64 && 0 <= mi.destination < 64
    && (mi.side == WhitePawns || mi.side == BlackPawns)
    && 0 <= mi.piece < NumPieceTypes
  }

  /** The base board of the colour that owns board `piece`. */
  function SideOf(piece: PieceIndex): (side: PieceIndex)
    ensures side == WhitePawns || side == BlackPawns
    ensures side == WhitePawns <==> piece < ColorOffset
  {
    if piece < ColorOffset then WhitePawns else BlackPawns
  }

  /** A move of the engine written as a move_info record. */
  function ToMoveInfo(m: Move): (mi: MoveInfo)
    ensures ValidMoveInfo(mi)
  {
    MoveInfo(m.from as int, m.to as int, SideOf(m.piece), m.piece)
  }

  /** A valid move_info record read back as a move of the engine. */
  function FromMoveInfo(mi: MoveInfo): (m: Move)
    requires ValidMoveInfo(mi)
    ensures m.piece == mi.piece
  {
    Move(mi.origin as Square, mi.destination as Square, mi.piece)
  }

  /** Writing a move as a record and reading it back gives the move again. */
  lemma MoveInfoRoundTrip(m: Move)
    ensures FromMoveInfo(ToMoveInfo(m)) == m
  {
  }

  /** A valid record whose side is its piece's colour survives the reverse trip. */
  lemma MoveInfoRoundTripBack(mi: MoveInfo)
    requires ValidMoveInfo(mi) && mi.side == SideOf(mi.piece)
    ensures ToMoveInfo(FromMoveInfo(mi)) == mi
  {
    SquareOfInt(mi.origin);
    SquareOfInt(mi.destination);
  }

  // board_manipulations.c

  /** popCount's loop: zero for the empty board, and one more than the count left after clearing the lowest bit. */
  lemma PopCountRecurrence(bb: bv64)
    ensures bb == 0 ==> |SetSquares(bb)| == 0
    ensures bb != 0 ==> |SetSquares(bb)| == 1 + |SetSquares(bb & (bb - 1))|
  {
    if bb != 0 {
      ClearLowestDecreases(bb);
      assert SetSquares(bb) == [Lowest(bb)] + SetSquares(bb & (bb - 1));
    }
  }

  // ChessEngine.c: knights

  /** `l1 | r1`: every knight moved one file to either side, with the h and a files masked off. */
  function OneFileOver(knights: bv64): bv64 {
    ((knights >> 1) & NotHFileDecimal) | ((knights << 1) & NotAFileDecimal)
  }

  /** `l2 | r2`: every knight moved two files to either side. */
  function TwoFilesOver(knights: bv64): bv64 {
    ((knights >> 2) & NotHgFileDecimal) | ((knights << 2) & NotAbFileDecimal)
  }

  /** `(h1<<16) | (h1>>16)`: two ranks up or down. */
  function TwoRanksOver(h1: bv64): bv64 {
    (h1 << 16) | (h1 >> 16)
  }

  /** `(h2<<8) | (h2>>8)`: one rank up or down. */
  function OneRankOver(h2: bv64): bv64 {
    (h2 << 8) | (h2 >> 8)
  }

  /** `(h1<<16) | (h1>>16) | (h2<<8) | (h2>>8)`, grouped in two halves. */
  function Spread(h1: bv64, h2: bv64): bv64 {
    TwoRanksOver(h1) | OneRankOver(h2)
  }

  /**
   * getKnightMoves: the knight pattern of every knight on `knights` at once,
   * before anything is filtered out. No knights give no squares, and for a
   * single knight the draft's pattern is the later engine's.
   */
  function GetKnightMoves(knights: bv64): (r: bv64)
    ensures knights == 0 ==> r == 0
    ensures forall sq: Square {:trigger KnightTargets(sq)} :: knights == SquareBit(sq) ==> r == KnightTargets(sq)
  {
    Spread(OneFileOver(knights), TwoFilesOver(knights))
  }

  lemma OneFileOverDistributes(a: bv64, b: bv64)
    ensures OneFileOver(a | b) == OneFileOver(a) | OneFileOver(b)
  {
  }

  lemma TwoFilesOverDistributes(a: bv64, b: bv64)
    ensures TwoFilesOver(a | b) == TwoFilesOver(a) | TwoFilesOver(b)
  {
  }

  lemma TwoRanksOverAt(h: bv64, j: Square)
    ensures Bit(TwoRanksOver(h), j) <==> (16 <= j && Bit(h, j - 16)) || (j < 48 && Bit(h, j + 16))
  {
    OrAt(h << 16, h >> 16, j);
    Up16At(h, j);
    Down16At(h, j);
  }

  lemma OneRankOverAt(h: bv64, j: Square)
    ensures Bit(OneRankOver(h), j) <==> (8 <= j && Bit(h, j - 8)) || (j < 56 && Bit(h, j + 8))
  {
    OrAt(h << 8, h >> 8, j);
    Up8At(h, j);
    Down8At(h, j);
  }

  lemma OneFileOverOrAt(a: bv64, b: bv64, x: Square)
    ensures Bit(OneFileOver(a | b), x) <==> Bit(OneFileOver(a), x) || Bit(OneFileOver(b), x)
  {
    OneFileOverDistributes(a, b);
    OrAt(OneFileOver(a), OneFileOver(b), x);
  }

  lemma TwoFilesOverOrAt(a: bv64, b: bv64, x: Square)
    ensures Bit(TwoFilesOver(a | b), x) <==> Bit(TwoFilesOver(a), x) || Bit(TwoFilesOver(b), x)
  {
    TwoFilesOverDistributes(a, b);
    OrAt(TwoFilesOver(a), TwoFilesOver(b), x);
  }

  lemma TwoRanksOneFileOrAt(a: bv64, b: bv64, j: Square)
    ensures Bit(TwoRanksOver(OneFileOver(a | b)), j) <==>
      Bit(TwoRanksOver(OneFileOver(a)), j) || Bit(TwoRanksOver(OneFileOver(b)), j)
  {
    TwoRanksOverAt(OneFileOver(a | b), j);
    TwoRanksOverAt(OneFileOver(a), j);
    TwoRanksOverAt(OneFileOver(b), j);
    OneFileOverOrAt(a, b, j - 16);
    OneFileOverOrAt(a, b, j + 16);
  }

  lemma OneRankTwoFilesOrAt(a: bv64, b: bv64, j: Square)
    ensures Bit(OneRankOver(TwoFilesOver(a | b)), j) <==>
      Bit(OneRankOver(TwoFilesOver(a)), j) || Bit(OneRankOver(TwoFilesOver(b)), j)
  {
    OneRankOverAt(TwoFilesOver(a | b), j);
    OneRankOverAt(TwoFilesOver(a), j);
    OneRankOverAt(TwoFilesOver(b), j);
    TwoFilesOverOrAt(a, b, j - 8);
    TwoFilesOverOrAt(a, b, j + 8);
  }

  lemma GetKnightMovesHalves(knights: bv64, j: Square)
    ensures Bit(GetKnightMoves(knights), j) <==>
      Bit(TwoRanksOver(OneFileOver(knights)), j) || Bit(OneRankOver(TwoFilesOver(knights)), j)
  {
    OrAt(TwoRanksOver(OneFileOver(knights)), OneRankOver(TwoFilesOver(knights)), j);
  }

  /** Square by square, the pattern of two boards of knights is the union of their patterns. */
  lemma GetKnightMovesOrAt(a: bv64, b: bv64, j: Square)
    ensures Bit(GetKnightMoves(a | b), j) <==> Bit(GetKnightMoves(a), j) || Bit(GetKnightMoves(b), j)
  {
    GetKnightMovesHalves(a | b, j);
    GetKnightMovesHalves(a, j);
    GetKnightMovesHalves(b, j);
    TwoRanksOneFileOrAt(a, b, j);
    OneRankTwoFilesOrAt(a, b, j);
  }

  /** A board whose squares are those of `y` or `z` is `y | z`. */
  lemma UnionDetermines(x: bv64, y: bv64, z: bv64)
    requires forall j: Square :: Bit(x, j) <==> Bit(y, j) || Bit(z, j)
    ensures x == y | z
  {
    forall j: Square ensures Bit(x, j) <==> Bit(y | z, j) {
      OrAt(y, z, j);
    }
    BitsDetermine(x, y | z);
  }

  /** The pattern of two boards of knights is the union of their patterns. */
  lemma GetKnightMovesDistributes(a: bv64, b: bv64)
    ensures GetKnightMoves(a | b) == GetKnightMoves(a) | GetKnightMoves(b)
  {
    GetKnightMovesOrAll(a, b);
    UnionDetermines(GetKnightMoves(a | b), GetKnightMoves(a), GetKnightMoves(b));
  }

  lemma GetKnightMovesOrAll(a: bv64, b: bv64)
    ensures forall j: Square :: Bit(GetKnightMoves(a | b), j) <==> Bit(GetKnightMoves(a), j) || Bit(GetKnightMoves(b), j)
  {
    forall j: Square ensures Bit(GetKnightMoves(a | b), j) <==> Bit(GetKnightMoves(a), j) || Bit(GetKnightMoves(b), j) {
      GetKnightMovesOrAt(a, b, j);
    }
  }

  lemma SomeSquare(b: bv64) returns (k: Square)
    requires b != 0
    ensures Bit(b, k)
  {
    k := LowestExists(b);
  }

  /** A non-empty board split into one of its squares and the board without it. */
  lemma TakeSquare(b: bv64) returns (k: Square, rest: bv64)
    requires b != 0
    ensures rest < b && Bit(b, k) && b == SquareBit(k) | rest
    ensures forall x: Square :: Bit(rest, x) <==> Bit(b, x) && x != k
  {
    k := SomeSquare(b);
    rest := b ^ SquareBit(k);
    RemoveSquare(b, k, rest);
    RemoveSquareAt(b, k, rest);
  }

  lemma RemoveSquare(b: bv64, k: Square, rest: bv64)
    requires Bit(b, k) && rest == b ^ SquareBit(k)
    ensures rest < b && b == SquareBit(k) | rest
  {
  }

  lemma RemoveSquareAt(b: bv64, k: Square, rest: bv64)
    requires Bit(b, k) && rest == b ^ SquareBit(k)
    ensures forall x: Square :: Bit(rest, x) <==> Bit(b, x) && x != k
  {
    forall x: Square ensures Bit(rest, x) <==> Bit(b, x) && x != k {
      FlipAt(b, k, x);
    }
  }

  lemma SinglePatternAt(k: Square, j: Square)
    ensures Bit(GetKnightMoves(SquareBit(k)), j) <==> KnightJump(k, j)
  {
    KnightTargetsAt(k, j);
  }

  /** The pattern of a board is one knight's jumps together with the pattern of the other knights. */
  lemma PatternSplitAt(knights: bv64, rest: bv64, k: Square, j: Square)
    requires knights == SquareBit(k) | rest
    ensures Bit(GetKnightMoves(knights), j) <==> KnightJump(k, j) || Bit(GetKnightMoves(rest), j)
  {
    GetKnightMovesOrAt(SquareBit(k), rest, j);
    SinglePatternAt(k, j);
  }

  /** Some knight of `knights` jumps to `j` exactly when its lowest knight does or one of the others does. */
  lemma JumperSplit(knights: bv64, rest: bv64, k: Square, j: Square)
    requires Bit(knights, k)
    requires forall x: Square :: Bit(rest, x) <==> Bit(knights, x) && x != k
    ensures (exists x: Square :: Bit(knights, x) && KnightJump(x, j)) <==>
      KnightJump(k, j) || exists x: Square :: Bit(rest, x) && KnightJump(x, j)
  {
    if exists x: Square :: Bit(knights, x) && KnightJump(x, j) {
      var x: Square :| Bit(knights, x) && KnightJump(x, j);
      if x != k {
        assert Bit(rest, x);
      }
    }
  }

  /**
   * Square `j` is in the pattern exactly when some knight on the board is a
   * knight's jump away from it: no jump wraps across the board's edge, and
   * squares held by the knights' own side are not removed.
   */
  lemma {:induction false} GetKnightMovesAt(knights: bv64, j: Square)
    ensures Bit(GetKnightMoves(knights), j) <==> exists k: Square :: Bit(knights, k) && KnightJump(k, j)
    decreases knights
  {
    if knights == 0 {
      assert GetKnightMoves(knights) == 0;
    } else {
      var k, rest := TakeSquare(knights);
      GetKnightMovesAt(rest, j);
      PatternSplitAt(knights, rest, k, j);
      JumperSplit(knights, rest, k, j);
    }
  }

  /** The later engine's knight moves are the draft's pattern with the mover's own squares removed. */
  lemma FriendlySquaresFiltered(sq: Square, B: Board, whiteToMove: bool)
    ensures KnightMoves(sq, B, whiteToMove) == GetKnightMoves(SquareBit(sq)) & !B[ColourAll(whiteToMove)]
  {
    SinglePatternAll(sq);
    MaskedOff(KnightMoves(sq, B, whiteToMove), GetKnightMoves(SquareBit(sq)), B[ColourAll(whiteToMove)]);
  }

  lemma SinglePatternAll(k: Square)
    ensures forall j: Square :: Bit(GetKnightMoves(SquareBit(k)), j) <==> KnightJump(k, j)
  {
    forall j: Square ensures Bit(GetKnightMoves(SquareBit(k)), j) <==> KnightJump(k, j) {
      SinglePatternAt(k, j);
    }
  }

  /** A board whose squares are those of `t` outside `f` is `t & !f`. */
  lemma MaskedOff(r: bv64, t: bv64, f: bv64)
    requires forall j: Square :: Bit(r, j) <==> Bit(t, j) && !Bit(f, j)
    ensures r == t & !f
  {
    forall j: Square ensures Bit(r, j) <==> Bit(t & !f, j) {
      AndNotAt(t, f, j);
    }
    BitsDetermine(r, t & !f);
  }

  lemma AndNotAt(t: bv64, f: bv64, j: Square)
    ensures Bit(t & !f, j) <==> Bit(t, j) && !Bit(f, j)
  {
    AndAt(t, !f, j);
    NotAt(f, j);
  }

  /** isLegalKnightMove: a stub that accepts every move. */
  function IsLegalKnightMove(B: Board, preMove: bv64, postMove: bv64): (legal: bool)
    ensures legal
  {
    true
  }

  /** `BBoard[whiteKnights + !whiteToMove * 7]`: the knights of the side to move. */
  function KnightsOf(whiteToMove: bool): (i: PieceIndex)
    ensures i == if whiteToMove then WhiteKnights else BlackKnights
  {
    WhiteKnights + (if whiteToMove then 0 else 1) * ColorOffset
  }

  /** The lines "<from> to <to> is a valid move" for one knight, one per target, in order. */
  ghost function JumpsFrom(from: Square, targets: seq<Square>): seq<(Square, Square)> {
    if targets == [] then [] else [(from, targets[0])] + JumpsFrom(from, targets[1..])
  }

  /** The lines printed for the knights on `knights`, in the order given. */
  ghost function KnightWalk(knights: seq<Square>): seq<(Square, Square)> {
    if knights == [] then []
    else JumpsFrom(knights[0], SetSquares(GetKnightMoves(SquareBit(knights[0])))) + KnightWalk(knights[1..])
  }

  /**
   * Every line generateMoves_knight prints for the side to move: exactly the
   * knight jumps of that side's knights.
   */
  ghost function KnightReport(B: Board, whiteToMove: bool): (r: seq<(Square, Square)>)
    ensures forall from: Square, to: Square ::
      (from, to) in r <==> Bit(B[KnightsOf(whiteToMove)], from) && KnightJump(from, to)
  {
    var knights := B[KnightsOf(whiteToMove)];
    var r := KnightWalk(SetSquares(knights));
    forall from: Square, to: Square
      ensures (from, to) in r <==> Bit(knights, from) && KnightJump(from, to)
    {
      KnightWalkMembers(SetSquares(knights), (from, to));
      SetSquaresAt(knights, from);
      SetSquaresAt(GetKnightMoves(SquareBit(from)), to);
      KnightTargetsAt(from, to);
    }
    r
  }

  lemma KnightWalkStep(knights: seq<Square>, report: seq<(Square, Square)>, total: seq<(Square, Square)>)
    requires knights != []
    requires report + KnightWalk(knights) == total
    ensures (report + JumpsFrom(knights[0], SetSquares(GetKnightMoves(SquareBit(knights[0]))))) + KnightWalk(knights[1..]) == total
  {
  }

  /**
   * generateMoves_knight: for each knight, lowest first, the squares of its
   * pattern are reported; nothing is collected and the result is NULL.
   */
  method GenerateMovesKnight(B: Board, whiteToMove: bool) returns (moves: Option<seq<Move>>, report: seq<(Square, Square)>)
    ensures moves == None
    ensures report == KnightReport(B, whiteToMove)
  {
    ghost var total := KnightReport(B, whiteToMove);
    var knightsBoard := B[KnightsOf(whiteToMove)];
    report := [];
    while knightsBoard != 0
      invariant report + KnightWalk(SetSquares(knightsBoard)) == total
      decreases |SetSquares(knightsBoard)|
    {
      var knightPosition := LowestSquare(knightsBoard);
      SetSquaresStep(knightsBoard, knightPosition);
      KnightWalkStep(SetSquares(knightsBoard), report, total);
      var knightMoves := GetKnightMoves(SquareBit(knightPosition));
      var lines := ReportKnightJumps(B, knightPosition, knightMoves);
      report := report + lines;
      knightsBoard := knightsBoard & (knightsBoard - 1);
    }
    moves := None;
  }

  lemma JumpsFromStep(from: Square, targets: seq<Square>, lines: seq<(Square, Square)>, total: seq<(Square, Square)>)
    requires targets != []
    requires lines + JumpsFrom(from, targets) == total
    ensures (lines + [(from, targets[0])]) + JumpsFrom(from, targets[1..]) == total
  {
  }

  /**
   * generateMoves_knight's inner loop: each square of `knightMoves`, lowest
   * first, is offered to isLegalKnightMove and reported.
   */
  method ReportKnightJumps(B: Board, knightPosition: Square, knightMoves: bv64) returns (lines: seq<(Square, Square)>)
    ensures lines == JumpsFrom(knightPosition, SetSquares(knightMoves))
  {
    var rest := knightMoves;
    lines := [];
    while rest != 0
      invariant lines + JumpsFrom(knightPosition, SetSquares(rest)) == JumpsFrom(knightPosition, SetSquares(knightMoves))
      decreases |SetSquares(rest)|
    {
      var knightMove := LowestSquare(rest);
      SetSquaresStep(rest, knightMove);
      JumpsFromStep(knightPosition, SetSquares(rest), lines, JumpsFrom(knightPosition, SetSquares(knightMoves)));
      var legal := IsLegalKnightMove(B, SquareBit(knightPosition), SquareBit(knightMove));
      if legal {
        lines := lines + [(knightPosition, knightMove)];
      }
      rest := rest & (rest - 1);
    }
  }

  /** AIMove of the draft: run the knight walk for the side to move and return no move. */
  method DraftAIMove(tokens: FenInfo) returns (best: Option<Move>, report: seq<(Square, Square)>)
    ensures best == None
    ensures report == KnightReport(tokens.board, tokens.whiteToMove)
  {
    var _, printed := GenerateMovesKnight(tokens.board, tokens.whiteToMove);
    report := printed;
    best := None;
  }

  // What the knight walk reports

  lemma {:induction false} JumpsFromMembers(from: Square, targets: seq<Square>, p: (Square, Square))
    ensures p in JumpsFrom(from, targets) <==> p.0 == from && p.1 in targets
  {
    if targets != [] {
      JumpsFromMembers(from, targets[1..], p);
      assert targets == [targets[0]] + targets[1..];
    }
  }

  lemma {:induction false} KnightWalkMembers(knights: seq<Square>, p: (Square, Square))
    ensures p in KnightWalk(knights) <==> p.0 in knights && p.1 in SetSquares(GetKnightMoves(SquareBit(p.0)))
  {
    if knights != [] {
      KnightWalkMembers(knights[1..], p);
      JumpsFromMembers(knights[0], SetSquares(GetKnightMoves(SquareBit(knights[0]))), p);
      assert knights == [knights[0]] + knights[1..];
    }
  }

  /** `p` comes before `q`: a lower knight, or the same knight and a lower target. */
  predicate Before(p: (Square, Square), q: (Square, Square)) {
    p.0 < q.0 || (p.0 == q.0 && p.1 < q.1)
  }

  /** Pairs in strictly increasing order, so no pair appears twice. */
  ghost predicate InWalkOrder(s: seq<(Square, Square)>) {
    forall i, j :: 0 <= i < j < |s| ==> Before(s[i], s[j])
  }

  lemma ConcatInOrder(a: seq<(Square, Square)>, b: seq<(Square, Square)>)
    requires InWalkOrder(a) && InWalkOrder(b)
    requires forall x, y :: x in a && y in b ==> Before(x, y)
    ensures InWalkOrder(a + b)
  {
    var s := a + b;
    forall i, j | 0 <= i < j < |s| ensures Before(s[i], s[j]) {
      if j < |a| {
        assert s[i] == a[i] && s[j] == a[j];
      } else if i >= |a| {
        assert s[i] == b[i - |a|] && s[j] == b[j - |a|];
      } else {
        assert s[i] == a[i] && s[j] == b[j - |a|];
        assert a[i] in a && b[j - |a|] in b;
      }
    }
  }

  lemma {:induction false} JumpsFromInOrder(from: Square, targets: seq<Square>)
    requires Ascending(targets)
    ensures InWalkOrder(JumpsFrom(from, targets))
  {
    if targets != [] {
      var tail := targets[1..];
      assert Ascending(tail) by {
        forall i, j | 0 <= i < j < |tail| ensures tail[i] < tail[j] {
          assert tail[i] == targets[i + 1] && tail[j] == targets[j + 1];
        }
      }
      JumpsFromInOrder(from, tail);
      forall y | y in JumpsFrom(from, tail) ensures Before((from, targets[0]), y) {
        JumpsFromMembers(from, tail, y);
        var n :| 0 <= n < |tail| && tail[n] == y.1;
        assert targets[n + 1] == y.1;
      }
      ConcatInOrder([(from, targets[0])], JumpsFrom(from, tail));
    }
  }

  lemma {:induction false} KnightWalkInOrder(knights: seq<Square>)
    requires Ascending(knights)
    ensures InWalkOrder(KnightWalk(knights))
  {
    if knights != [] {
      var k := knights[0];
      var tail := knights[1..];
      assert Ascending(tail) by {
        forall i, j | 0 <= i < j < |tail| ensures tail[i] < tail[j] {
          assert tail[i] == knights[i + 1] && tail[j] == knights[j + 1];
        }
      }
      var here := JumpsFrom(k, SetSquares(GetKnightMoves(SquareBit(k))));
      SetSquaresAscending(GetKnightMoves(SquareBit(k)));
      JumpsFromInOrder(k, SetSquares(GetKnightMoves(SquareBit(k))));
      KnightWalkInOrder(tail);
      forall x, y | x in here && y in KnightWalk(tail) ensures Before(x, y) {
        JumpsFromMembers(k, SetSquares(GetKnightMoves(SquareBit(k))), x);
        KnightWalkMembers(tail, y);
        var n :| 0 <= n < |tail| && tail[n] == y.0;
        assert knights[n + 1] == y.0;
      }
      ConcatInOrder(here, KnightWalk(tail));
    }
  }

  /** Knights are visited lowest first and each knight's targets lowest first, so every pair is reported once. */
  lemma KnightReportOnce(B: Board, whiteToMove: bool)
    ensures InWalkOrder(KnightReport(B, whiteToMove))
    ensures forall i, j :: 0 <= i < j < |KnightReport(B, whiteToMove)| ==> KnightReport(B, whiteToMove)[i] != KnightReport(B, whiteToMove)[j]
  {
    SetSquaresAscending(B[KnightsOf(whiteToMove)]);
    KnightWalkInOrder(SetSquares(B[KnightsOf(whiteToMove)]));
  }
}
