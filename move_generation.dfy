/**
 * Legal move generation of the bitboard engine
 * (lichess_bot_refactored/src/ChessEngine.c): material evaluation, the
 * table of per-kind generators, the check test, the legality test on a
 * copy of the position and the ordered list of legal moves.
 */
module MoveGeneration {
  import opened DataStructs
  import opened BoardManipulations
  import opened ChessEngine

  // Walking the set squares of a board

  /** `bitScanForward(b)` as the loops over set squares call it. */
  method LowestSquare(b: bv64) returns (sq: Square)
    requires b != 0
    ensures IsLowest(b, sq)
  {
    sq := BitScanForward(b);
  }

  /** One step of `while (b) { sq = bitScanForward(b); ...; b &= b - 1; }` in terms of SetSquares. */
  lemma SetSquaresStep(b: bv64, k: Square)
    requires IsLowest(b, k)
    ensures b & (b - 1) < b
    ensures SetSquares(b) == [k] + SetSquares(b & (b - 1))
    ensures forall j: Square :: Bit(b & (b - 1), j) <==> Bit(b, j) && j != k
  {
    ClearLowestDecreases(b);
    LowestUnique(b, k, Lowest(b));
    forall j: Square ensures Bit(b & (b - 1), j) <==> Bit(b, j) && j != k {
      ClearLowestAt(b, k, j);
    }
  }

  /** Two boards share a square exactly when their intersection is non-empty. */
  lemma MeetsAt(a: bv64, b: bv64)
    ensures a & b != 0 <==> exists k: Square :: Bit(a, k) && Bit(b, k)
  {
    if a & b != 0 {
      var k := Lowest(a & b);
      AndAt(a, b, k);
    } else {
      forall k: Square ensures !(Bit(a, k) && Bit(b, k)) {
        AndAt(a, b, k);
      }
    }
  }

  // Material

  /** Centipawn values of pawn, knight, bishop, rook, queen and king (evaluateMaterial's `values`). */
  const PieceValues: seq<int> := [100, 300, 300, 500, 900, 20000]

  /** The number of pieces on a board: its set squares. */
  ghost function Count(b: bv64): nat {
    |SetSquares(b)|
  }

  /** Weighted white-minus-black piece count over the first `n` kinds. */
  ghost function Balance(B: Board, n: nat): int
    requires n <= 6
  {
    if n == 0 then 0
    else Balance(B, n - 1) + PieceValues[n - 1] * (Count(B[n - 1]) - Count(B[n - 1 + ColorOffset]))
  }

  /** The material balance from the point of view of the side to move. */
  ghost function Material(B: Board, whiteToMove: bool): int {
    if whiteToMove then Balance(B, 6) else -Balance(B, 6)
  }

  /**
   * evaluateMaterial: for each kind, the value times the difference of the
   * two colours' popCounts, negated when black is to move.
   */
  method EvaluateMaterial(B: Board, whiteToMove: bool) returns (score: int)
    ensures score == Material(B, whiteToMove)
  {
    score := 0;
    var values := PieceValues;
    for i := 0 to WhiteAll
      invariant score == Balance(B, i)
    {
      var white := PopCount(B[i]);
      var black := PopCount(B[i + ColorOffset]);
      var count := white - black;
      score := score + values[i] * count;
    }
    if !whiteToMove {
      score := score * -1;
    }
  }

  /** The position with the colours exchanged: each white board trades places with its black board. */
  function SwapColours(B: Board): (r: Board)
    ensures forall i: PieceIndex :: i < ColorOffset ==> r[i] == B[i + ColorOffset] && r[i + ColorOffset] == B[i]
  {
    seq(NumPieceTypes, i requires 0 <= i < NumPieceTypes => if i < ColorOffset then B[i + ColorOffset] else B[i - ColorOffset])
  }

  lemma {:induction false} BalanceSwapped(B: Board, n: nat)
    requires n <= 6
    ensures Balance(SwapColours(B), n) == -Balance(B, n)
  {
    if n > 0 {
      BalanceSwapped(B, n - 1);
      var r := SwapColours(B);
      assert r[n - 1] == B[n - 1 + ColorOffset] && r[n - 1 + ColorOffset] == B[n - 1];
    }
  }

  /** Each kind adds at most 64 pieces' worth to either side of the balance. */
  lemma {:induction false} BalanceBounds(B: Board, n: nat)
    requires n <= 6
    ensures -1280000 * n <= Balance(B, n) <= 1280000 * n
  {
    if n > 0 {
      BalanceBounds(B, n - 1);
      var white, black := B[n - 1], B[n - 1 + ColorOffset];
      SetSquaresAtMost64(white);
      SetSquaresAtMost64(black);
      var d := Count(white) - Count(black);
      WeightedBound(n - 1, d);
      assert Balance(B, n) == Balance(B, n - 1) + PieceValues[n - 1] * d;
    }
  }

  /** One kind's weighted difference of at most 64 pieces. */
  lemma WeightedBound(k: nat, d: int)
    requires k < 6 && -64 <= d <= 64
    ensures -1280000 <= PieceValues[k] * d <= 1280000
  {
    if k == 5 {
      assert PieceValues[k] * d == 20000 * d;
    } else if k == 4 {
      assert PieceValues[k] * d == 900 * d;
    } else if k == 3 {
      assert PieceValues[k] * d == 500 * d;
    } else if k == 0 {
      assert PieceValues[k] * d == 100 * d;
    } else {
      assert PieceValues[k] * d == 300 * d;
    }
  }

  /** evaluateMaterial's score stays far inside a 32-bit `int`: at most 64 kings' worth per kind. */
  lemma MaterialBounds(B: Board, whiteToMove: bool)
    ensures -7680000 <= Material(B, whiteToMove) <= 7680000
  {
    BalanceBounds(B, 6);
  }

  /** Material is colour-blind: exchanging the colours and the side to move leaves the score unchanged. */
  lemma MaterialColourSymmetric(B: Board, whiteToMove: bool)
    ensures Material(SwapColours(B), !whiteToMove) == Material(B, whiteToMove)
    ensures Material(B, !whiteToMove) == -Material(B, whiteToMove)
  {
    BalanceSwapped(B, 6);
  }

  // The piece table of get_pieces_struct

  /** A kind of piece, as the white board index get_pieces_struct stores (pawn 0 ... king 5). */
  type PieceKind = k: nat | k < 6

  /** `pieceType + !white * colorOffset`: the board of that kind for the given side. */
  function PieceOf(kind: PieceKind, white: bool): (p: PieceIndex)
    ensures p == if white then kind else kind + ColorOffset
    ensures p != WhiteAll && p != BlackAll
    ensures OwnAll(p) == ColourAll(white)
  {
    kind + (if white then 0 else 1) * ColorOffset
  }

  /**
   * A piece of `kind` of side `white` on `sq` may move to `j` (pseudo-legally,
   * ignoring check): the square set the kind's generator returns.
   */
  ghost predicate Targets(kind: PieceKind, sq: Square, B: Board, white: bool, j: Square) {
    var friendly := Bit(B[ColourAll(white)], j);
    if kind == WhitePawns then PawnStep(sq, B, white, j)
    else if kind == WhiteKnights then KnightJump(sq, j) && !friendly
    else if kind == WhiteBishops then Slides(BishopRays, 4, sq, Occupied(B), j) && !friendly
    else if kind == WhiteRooks then Slides(RookRays, 4, sq, Occupied(B), j) && !friendly
    else if kind == WhiteQueens then
      (Slides(RookRays, 4, sq, Occupied(B), j) || Slides(BishopRays, 4, sq, Occupied(B), j)) && !friendly
    else KingStep(sq, j) && !friendly
  }

  /**
   * The call through a get_pieces_struct entry: pawns and kings through the
   * generator taking an extra (ignored) board, the others through the plain one.
   */
  method GeneratePieceMoves(kind: PieceKind, sq: Square, B: Board, white: bool) returns (moves: bv64)
    ensures forall j: Square :: Bit(moves, j) <==> Targets(kind, sq, B, white, j)
  {
    if kind == WhitePawns {
      moves := PawnMoves(sq, B, white);
    } else if kind == WhiteKnights {
      moves := KnightMoves(sq, B, white);
    } else if kind == WhiteBishops {
      moves := GenerateBishopMoves(sq, B, white);
    } else if kind == WhiteRooks {
      moves := GenerateRookMoves(sq, B, white);
    } else if kind == WhiteQueens {
      moves := GenerateQueenMoves(sq, B, white);
    } else {
      moves := KingMoves(sq, B, white);
    }
  }

  // isInCheck

  /** The piece of `kind` of side `white` on `sq` can move onto a square of `targets`. */
  ghost predicate Hits(kind: PieceKind, sq: Square, B: Board, white: bool, targets: bv64) {
    exists k: Square :: Bit(targets, k) && Targets(kind, sq, B, white, k)
  }

  /** A generated move board meets `targets` exactly when the piece hits one of its squares. */
  lemma HitsIff(kind: PieceKind, sq: Square, B: Board, white: bool, moves: bv64, targets: bv64)
    requires forall j: Square :: Bit(moves, j) <==> Targets(kind, sq, B, white, j)
    ensures moves & targets != 0 <==> Hits(kind, sq, B, white, targets)
  {
    MeetsAt(moves, targets);
  }

  /**
   * After a move of side `whiteMoved`, some opposing piece can move onto that
   * side's king.
   */
  ghost predicate InCheck(B: Board, whiteMoved: bool) {
    exists kind: PieceKind, sq: Square :: Checks(B, whiteMoved, kind, sq, B[PieceOf(WhiteKing, whiteMoved)])
  }

  /** The opposing piece of `kind` on `sq` can move onto a square of `kingBoard`. */
  ghost predicate Checks(B: Board, whiteMoved: bool, kind: PieceKind, sq: Square, kingBoard: bv64) {
    Bit(B[PieceOf(kind, !whiteMoved)], sq) && Hits(kind, sq, B, !whiteMoved, kingBoard)
  }

  /**
   * isInCheck: generates the moves of every opposing piece, kind by kind and
   * square by square, and stops at the first one that meets the king board.
   */
  method IsInCheck(B: Board, whiteMoved: bool) returns (inCheck: bool)
    ensures inCheck <==> InCheck(B, whiteMoved)
  {
    var kingBoard := B[WhiteKing + (if whiteMoved then 0 else 1) * ColorOffset];
    assert kingBoard == B[PieceOf(WhiteKing, whiteMoved)];
    for kind := 0 to WhiteAll
      invariant forall k: PieceKind, sq: Square :: k < kind ==> !Checks(B, whiteMoved, k, sq, kingBoard)
    {
      var found := KindGivesCheck(B, whiteMoved, kind, kingBoard);
      if found {
        return true;
      }
    }
    return false;
  }

  /**
   * The inner loop of isInCheck for one kind: the opposing pieces of that
   * kind, lowest square first, until one of them meets the king board.
   */
  method KindGivesCheck(B: Board, whiteMoved: bool, kind: PieceKind, kingBoard: bv64) returns (found: bool)
    ensures found <==> exists sq: Square :: Checks(B, whiteMoved, kind, sq, kingBoard)
  {
    var enemy := B[kind + (if whiteMoved then 1 else 0) * ColorOffset];
    assert enemy == B[PieceOf(kind, !whiteMoved)];
    var pieceBoard := enemy;
    while pieceBoard != 0
      invariant forall sq: Square :: Bit(pieceBoard, sq) ==> Bit(enemy, sq)
      invariant forall sq: Square ::
        Bit(enemy, sq) && !Bit(pieceBoard, sq) ==> !Hits(kind, sq, B, !whiteMoved, kingBoard)
      decreases |SetSquares(pieceBoard)|
    {
      var pieceIndex := LowestSquare(pieceBoard);
      var pieceMoves := GeneratePieceMoves(kind, pieceIndex, B, !whiteMoved);
      HitsIff(kind, pieceIndex, B, !whiteMoved, pieceMoves, kingBoard);
      if pieceMoves & kingBoard != 0 {
        assert Checks(B, whiteMoved, kind, pieceIndex, kingBoard);
        return true;
      }
      SetSquaresStep(pieceBoard, pieceIndex);
      pieceBoard := pieceBoard & (pieceBoard - 1);
    }
    forall sq: Square ensures !Checks(B, whiteMoved, kind, sq, kingBoard) {
      assert !Bit(pieceBoard, sq);
    }
    return false;
  }

  // checkMoveLegal

  /** `m` can be made on `B` and does not leave the mover's king attacked. */
  ghost predicate Legal(B: Board, whiteToMove: bool, m: Move) {
    MoveAllowed(B, m) && !InCheck(ApplyMove(B, m), whiteToMove)
  }

  /**
   * checkMoveLegal: makes the move on a copy of the position and asks
   * isInCheck about the mover's king.
   */
  method CheckMoveLegal(B: Board, whiteToMove: bool, m: Move) returns (legal: bool)
    requires MoveAllowed(B, m)
    ensures legal <==> Legal(B, whiteToMove, m)
  {
    var tmpBoard := new bv64[NumPieceTypes](i requires 0 <= i < NumPieceTypes => B[i]);
    assert tmpBoard[..] == B;
    MakeMove(tmpBoard, m);
    var inCheck := IsInCheck(tmpBoard[..], whiteToMove);
    legal := !inCheck;
  }

  // getMoves

  /** The squares from `t` upwards that satisfy `P`, in ascending order. */
  ghost function SquaresFrom(P: Square -> bool, t: Square): seq<Square>
    decreases 63 - t
  {
    var head := if P(t) then [t] else [];
    if t == 63 then head else head + SquaresFrom(P, t + 1)
  }

  lemma {:induction false} SquaresFromExact(P: Square -> bool, t: Square)
    ensures forall x: Square :: x in SquaresFrom(P, t) <==> t <= x && P(x)
    ensures Ascending(SquaresFrom(P, t))
    decreases 63 - t
  {
    if t != 63 {
      SquaresFromExact(P, t + 1);
      if P(t) {
        ConsAscending(t, SquaresFrom(P, t + 1));
      }
    }
  }

  /** Two ascending sequences with the same elements are equal. */
  lemma {:induction false} AscendingUnique(a: seq<Square>, b: seq<Square>)
    requires Ascending(a) && Ascending(b)
    requires forall x :: x in a <==> x in b
    ensures a == b
    decreases |a|
  {
    assert a != [] ==> a[0] in a;
    assert b != [] ==> b[0] in b;
    if a != [] && b != [] {
      assert a[0] in a && b[0] in b;
      var i :| 0 <= i < |a| && a[i] == b[0];
      var j :| 0 <= j < |b| && b[j] == a[0];
      assert a[0] == b[0];
      forall x ensures x in a[1..] <==> x in b[1..] {
        TailMembers(a, x);
        TailMembers(b, x);
      }
      AscendingUnique(a[1..], b[1..]);
    }
  }

  /** The tail of an ascending sequence holds its elements other than the head. */
  lemma TailMembers(a: seq<Square>, x: Square)
    requires Ascending(a) && a != []
    ensures Ascending(a[1..])
    ensures x in a[1..] <==> x in a && x != a[0]
  {
    if x in a[1..] {
      var k :| 1 <= k < |a| && a[k] == x;
      assert a[0] < a[k];
    }
    if x in a && x != a[0] {
      var k :| 0 <= k < |a| && a[k] == x;
      assert a[1..][k - 1] == x;
    }
  }

  /** The squares a board's bit scan loop visits are the ascending squares of any predicate it holds exactly. */
  lemma BoardSquares(bb: bv64, P: Square -> bool)
    requires forall j: Square :: Bit(bb, j) <==> P(j)
    ensures SetSquares(bb) == SquaresFrom(P, 0)
  {
    SetSquaresExact(bb);
    SetSquaresAscending(bb);
    SquaresFromExact(P, 0);
    AscendingUnique(SetSquares(bb), SquaresFrom(P, 0));
  }

  /** The destinations of the piece of `kind` on `sq`, in the order the engine tries them. */
  ghost function TargetSquares(kind: PieceKind, sq: Square, B: Board, white: bool): seq<Square> {
    SquaresFrom(j => Targets(kind, sq, B, white, j), 0)
  }

  lemma TargetSquaresExact(kind: PieceKind, sq: Square, B: Board, white: bool, to: Square)
    ensures to in TargetSquares(kind, sq, B, white) <==> Targets(kind, sq, B, white, to)
  {
    SquaresFromExact(j => Targets(kind, sq, B, white, j), 0);
  }

  // The order of getMoves, for any filter `keep` (checkMoveLegal in getMoves itself)

  /** The moves `from` -> `to` of `piece` that `keep` accepts, for `to` taken from `targets` in order. */
  ghost function MovesTo(piece: PieceIndex, from: Square, targets: seq<Square>, keep: Move -> bool): seq<Move> {
    if targets == [] then []
    else
      var m := Move(from, targets[0], piece);
      (if keep(m) then [m] else []) + MovesTo(piece, from, targets[1..], keep)
  }

  /** The accepted moves of the pieces of `kind` standing on `froms`, square by square. */
  ghost function MovesFrom(B: Board, white: bool, kind: PieceKind, froms: seq<Square>, keep: Move -> bool): seq<Move> {
    if froms == [] then []
    else
      MovesTo(PieceOf(kind, white), froms[0], TargetSquares(kind, froms[0], B, white), keep)
        + MovesFrom(B, white, kind, froms[1..], keep)
  }

  /** The accepted moves of the kinds from `kind` up to the king, kind by kind. */
  ghost function MovesOfKinds(B: Board, white: bool, kind: nat, keep: Move -> bool): seq<Move>
    decreases 6 - kind
  {
    if kind >= 6 then []
    else MovesFrom(B, white, kind, SetSquares(B[PieceOf(kind, white)]), keep) + MovesOfKinds(B, white, kind + 1, keep)
  }

  /** The legality test of checkMoveLegal as a filter. */
  ghost function LegalIn(B: Board, white: bool): Move -> bool {
    m => Legal(B, white, m)
  }

  /**
   * The legal moves of side `white` in getMoves' order: by kind (pawn first,
   * king last), then by origin square, then by destination square, lowest first.
   */
  ghost function LegalMoves(B: Board, white: bool): seq<Move> {
    MovesOfKinds(B, white, 0, LegalIn(B, white))
  }

  lemma GeneratedMoveAllowed(B: Board, white: bool, kind: PieceKind, from: Square, to: Square)
    requires WellFormed(B)
    requires Bit(B[PieceOf(kind, white)], from) && Targets(kind, from, B, white, to)
    ensures MoveAllowed(B, Move(from, to, PieceOf(kind, white)))
  {
    assert ConsistentAt(B, from) && ConsistentAt(B, to);
    TargetNotFriendly(B, white, kind, from, to);
  }

  /** No generator offers a square held by the mover's own side. */
  lemma TargetNotFriendly(B: Board, white: bool, kind: PieceKind, from: Square, to: Square)
    requires WellFormed(B) && Targets(kind, from, B, white, to)
    ensures !Bit(B[ColourAll(white)], to)
  {
    assert ConsistentAt(B, to);
  }


  /** Board `p` holds pieces (it is not a colour union) of side `white`. */
  predicate OwnPiece(p: PieceIndex, white: bool) {
    if white then p < WhiteAll else BlackPawns <= p < BlackAll
  }

  /** The kind of the pieces on board `p`. */
  function KindOf(p: PieceIndex): (kind: PieceKind)
    requires p != WhiteAll && p != BlackAll
    ensures PieceOf(kind, p < ColorOffset) == p
  {
    p % ColorOffset
  }

  /** `m` takes a piece of side `white` from its square to a square its kind's generator offers. */
  ghost predicate Candidate(B: Board, white: bool, m: Move) {
    OwnPiece(m.piece, white) && Bit(B[m.piece], m.from) && Targets(KindOf(m.piece), m.from, B, white, m.to)
  }

  lemma {:induction false} MovesToMembers(piece: PieceIndex, from: Square, targets: seq<Square>, keep: Move -> bool, m: Move)
    ensures m in MovesTo(piece, from, targets, keep) <==> m.piece == piece && m.from == from && m.to in targets && keep(m)
    decreases |targets|
  {
    if targets != [] {
      MovesToMembers(piece, from, targets[1..], keep, m);
    }
  }

  lemma {:induction false} MovesFromMembers(B: Board, white: bool, kind: PieceKind, froms: seq<Square>, keep: Move -> bool, m: Move)
    ensures m in MovesFrom(B, white, kind, froms, keep) <==>
      m.piece == PieceOf(kind, white) && m.from in froms && m.to in TargetSquares(kind, m.from, B, white) && keep(m)
    decreases |froms|
  {
    if froms != [] {
      MovesToMembers(PieceOf(kind, white), froms[0], TargetSquares(kind, froms[0], B, white), keep, m);
      MovesFromMembers(B, white, kind, froms[1..], keep, m);
    }
  }

  /** The moves listed for the kinds from `kind` on: a piece of such a kind, on its board, to one of its targets. */
  lemma {:induction false} MovesOfKindsMembers(B: Board, white: bool, kind: nat, keep: Move -> bool, m: Move)
    requires kind <= 6
    ensures m in MovesOfKinds(B, white, kind, keep) <==>
      OwnPiece(m.piece, white) && kind <= KindOf(m.piece) && Bit(B[m.piece], m.from)
        && m.to in TargetSquares(KindOf(m.piece), m.from, B, white) && keep(m)
    decreases 6 - kind
  {
    if kind < 6 {
      KindStepMembers(B, white, kind, keep, m);
      MovesOfKindsMembers(B, white, kind + 1, keep, m);
      if OwnPiece(m.piece, white) {
        assert m.piece == PieceOf(kind, white) <==> KindOf(m.piece) == kind;
      }
    }
  }

  lemma KindStepMembers(B: Board, white: bool, kind: PieceKind, keep: Move -> bool, m: Move)
    ensures m in MovesOfKinds(B, white, kind, keep) <==>
      (m.piece == PieceOf(kind, white) && Bit(B[m.piece], m.from) && m.to in TargetSquares(kind, m.from, B, white) && keep(m))
        || m in MovesOfKinds(B, white, kind + 1, keep)
  {
    var board := B[PieceOf(kind, white)];
    MovesFromMembers(B, white, kind, SetSquares(board), keep, m);
    SetSquaresAt(board, m.from);
  }

  /**
   * getMoves lists exactly the legal moves: a move is listed if and only if
   * it takes one of the mover's pieces to a square its generator offers and
   * does not leave the mover's king attacked.
   */
  lemma LegalMovesExact(B: Board, white: bool, m: Move)
    ensures m in LegalMoves(B, white) <==> Candidate(B, white, m) && Legal(B, white, m)
  {
    MovesOfKindsMembers(B, white, 0, LegalIn(B, white), m);
    if OwnPiece(m.piece, white) {
      TargetSquaresExact(KindOf(m.piece), m.from, B, white, m.to);
    }
  }

  lemma MovesToStep(piece: PieceIndex, from: Square, targets: seq<Square>, keep: Move -> bool, found: seq<Move>, total: seq<Move>)
    requires targets != []
    requires found + MovesTo(piece, from, targets, keep) == total
    ensures (if keep(Move(from, targets[0], piece)) then found + [Move(from, targets[0], piece)] else found)
      + MovesTo(piece, from, targets[1..], keep) == total
  {
  }

  lemma MovesFromStep(B: Board, white: bool, kind: PieceKind, froms: seq<Square>, keep: Move -> bool, found: seq<Move>, total: seq<Move>)
    requires froms != []
    requires found + MovesFrom(B, white, kind, froms, keep) == total
    ensures found + MovesTo(PieceOf(kind, white), froms[0], TargetSquares(kind, froms[0], B, white), keep)
      + MovesFrom(B, white, kind, froms[1..], keep) == total
  {
  }

  lemma MovesOfKindsStep(B: Board, white: bool, kind: PieceKind, keep: Move -> bool, found: seq<Move>, total: seq<Move>)
    requires found + MovesOfKinds(B, white, kind, keep) == total
    ensures found + MovesFrom(B, white, kind, SetSquares(B[PieceOf(kind, white)]), keep)
      + MovesOfKinds(B, white, kind + 1, keep) == total
  {
    var here := MovesFrom(B, white, kind, SetSquares(B[PieceOf(kind, white)]), keep);
    var later := MovesOfKinds(B, white, kind + 1, keep);
    assert MovesOfKinds(B, white, kind, keep) == here + later;
    assert found + (here + later) == found + here + later;
  }

  /**
   * getMoves' innermost block: the generator call for the piece of `kind`
   * on `from`, then the loop over the squares it offers.
   */
  method PieceLegalMoves(B: Board, whiteToMove: bool, kind: PieceKind, from: Square) returns (found: seq<Move>)
    requires WellFormed(B) && Bit(B[PieceOf(kind, whiteToMove)], from)
    ensures found == MovesTo(PieceOf(kind, whiteToMove), from, TargetSquares(kind, from, B, whiteToMove), LegalIn(B, whiteToMove))
  {
    var pieceMoves := GeneratePieceMoves(kind, from, B, whiteToMove);
    BoardSquares(pieceMoves, j => Targets(kind, from, B, whiteToMove, j));
    forall to | to in SetSquares(pieceMoves)
      ensures MoveAllowed(B, Move(from, to, PieceOf(kind, whiteToMove)))
    {
      SetSquaresAt(pieceMoves, to);
      GeneratedMoveAllowed(B, whiteToMove, kind, from, to);
    }
    found := KeepLegal(B, whiteToMove, PieceOf(kind, whiteToMove), from, pieceMoves);
  }

  /**
   * getMoves' innermost loop: the moves of `piece` from `from` to the squares
   * of `pieceMoves`, lowest first, kept when checkMoveLegal accepts them.
   */
  method KeepLegal(B: Board, whiteToMove: bool, piece: PieceIndex, from: Square, pieceMoves: bv64) returns (found: seq<Move>)
    requires forall to :: to in SetSquares(pieceMoves) ==> MoveAllowed(B, Move(from, to, piece))
    ensures found == MovesTo(piece, from, SetSquares(pieceMoves), LegalIn(B, whiteToMove))
  {
    ghost var keep := LegalIn(B, whiteToMove);
    ghost var total := MovesTo(piece, from, SetSquares(pieceMoves), keep);
    var rest := pieceMoves;
    found := [];
    while rest != 0
      invariant forall t :: t in SetSquares(rest) ==> t in SetSquares(pieceMoves)
      invariant found + MovesTo(piece, from, SetSquares(rest), keep) == total
      decreases |SetSquares(rest)|
    {
      var pieceMove := LowestSquare(rest);
      var m := Move(from, pieceMove, piece);
      SetSquaresStep(rest, pieceMove);
      var legal := CheckMoveLegal(B, whiteToMove, m);
      MovesToStep(piece, from, SetSquares(rest), keep, found, total);
      if legal {
        found := found + [m];
      }
      rest := rest & (rest - 1);
    }
  }

  /** getMoves' middle loop: the legal moves of the mover's pieces of `kind`, lowest origin first. */
  method KindLegalMoves(B: Board, whiteToMove: bool, kind: PieceKind) returns (found: seq<Move>)
    requires WellFormed(B)
    ensures found == MovesFrom(B, whiteToMove, kind, SetSquares(B[PieceOf(kind, whiteToMove)]), LegalIn(B, whiteToMove))
  {
    ghost var keep := LegalIn(B, whiteToMove);
    var pieceBoard := B[kind + (if whiteToMove then 0 else 1) * ColorOffset];
    ghost var total := MovesFrom(B, whiteToMove, kind, SetSquares(pieceBoard), keep);
    found := [];
    while pieceBoard != 0
      invariant forall sq: Square :: Bit(pieceBoard, sq) ==> Bit(B[PieceOf(kind, whiteToMove)], sq)
      invariant found + MovesFrom(B, whiteToMove, kind, SetSquares(pieceBoard), keep) == total
      decreases |SetSquares(pieceBoard)|
    {
      hide MovesFrom, MovesTo, TargetSquares, LegalIn;
      var pieceIndex := LowestSquare(pieceBoard);
      SetSquaresStep(pieceBoard, pieceIndex);
      MovesFromStep(B, whiteToMove, kind, SetSquares(pieceBoard), keep, found, total);
      var pieceMoves := PieceLegalMoves(B, whiteToMove, kind, pieceIndex);
      found := found + pieceMoves;
      pieceBoard := pieceBoard & (pieceBoard - 1);
    }
  }

  /**
   * getMoves: for each kind in get_pieces_struct order, for each of the
   * mover's pieces of that kind and each square its generator offers, lowest
   * first, the move is kept when checkMoveLegal accepts it. The castling and
   * en-passant arguments only reach generators that ignore them.
   */
  method GetMoves(B: Board, whiteToMove: bool) returns (moves: seq<Move>)
    requires WellFormed(B)
    ensures moves == LegalMoves(B, whiteToMove)
  {
    ghost var keep := LegalIn(B, whiteToMove);
    moves := [];
    for kind := 0 to WhiteAll
      invariant moves + MovesOfKinds(B, whiteToMove, kind, keep) == LegalMoves(B, whiteToMove)
    {
      MovesOfKindsStep(B, whiteToMove, kind, keep, moves, LegalMoves(B, whiteToMove));
      var kindMoves := KindLegalMoves(B, whiteToMove, kind);
      moves := moves + kindMoves;
    }
  }
}
