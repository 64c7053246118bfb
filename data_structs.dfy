/**
 * Shared vocabulary of the bitboard engine: squares, the fourteen board
 * indices of a position, the file masks and the de Bruijn bit-scan table.
 *
 * A bitboard is a `bv64` whose bit `sq` is set when square `sq` is occupied;
 * squares are numbered a1 = 0, b1 = 1, ..., h1 = 7, a2 = 8, ..., h8 = 63.
 */
module DataStructs {

  /** A value that may be absent: the engine's NULL results and failed parses. */
  datatype Option<T> = None | Some(value: T)

  /** A square index (enum enumSquare): file = low three bits, rank = high three bits. */
  type Square = bv6

  /** Index of one of the fourteen boards of a position (enum EPieceType). */
  type PieceIndex = p: nat | p < 14

  const WhitePawns: PieceIndex := 0
  const WhiteKnights: PieceIndex := 1
  const WhiteBishops: PieceIndex := 2
  const WhiteRooks: PieceIndex := 3
  const WhiteQueens: PieceIndex := 4
  const WhiteKing: PieceIndex := 5
  const WhiteAll: PieceIndex := 6
  const BlackPawns: PieceIndex := 7
  const BlackKnights: PieceIndex := 8
  const BlackBishops: PieceIndex := 9
  const BlackRooks: PieceIndex := 10
  const BlackQueens: PieceIndex := 11
  const BlackKing: PieceIndex := 12
  const BlackAll: PieceIndex := 13
  /** Distance between a white board and the black board of the same kind. */
  const ColorOffset: nat := 7
  const NumPieceTypes: nat := 14

  /** The fourteen boards of a position, indexed by PieceIndex. */
  type Board = b: seq<bv64> | |b| == 14 witness [0, 0, 0, 0, 0, 0, 0, 0, 0, 0, 0, 0, 0, 0]

  /** A move as the engine stores it: origin, destination and the board index of the mover. */
  datatype Move = Move(from: Square, to: Square, piece: PieceIndex)

  /** Square `sq` is occupied on bitboard `b`. */
  predicate Bit(b: bv64, sq: Square) {
    b & ((1 as bv64) << sq) != 0
  }

  /** The single-square bitboard of `sq` (`1UL << sq`). */
  function SquareBit(sq: Square): (r: bv64)
    ensures forall j: Square :: Bit(r, j) <==> j == sq
  {
    (1 as bv64) << sq
  }

  /** File of a square, 0 = a ... 7 = h. */
  function FileOf(sq: Square): bv6 { sq & 7 }

  /** Rank of a square, 0 = rank 1 ... 7 = rank 8. */
  function RankOf(sq: Square): bv6 { sq >> 3 }

  // Bitwise operations square by square. The solver handles these one
  // operator at a time; the lemmas below are what the rest of the model calls.

  lemma AndAt(a: bv64, b: bv64, j: Square)
    ensures Bit(a & b, j) <==> Bit(a, j) && Bit(b, j)
  {
  }

  lemma NotAt(b: bv64, j: Square)
    ensures Bit(!b, j) <==> !Bit(b, j)
  {
  }

  lemma OrAt(a: bv64, b: bv64, j: Square)
    ensures Bit(a | b, j) <==> Bit(a, j) || Bit(b, j)
  {
    var m := (1 as bv64) << j;
    assert (a | b) & m == (a & m) | (b & m);
  }

  lemma XorAt(a: bv64, b: bv64, j: Square)
    ensures Bit(a ^ b, j) <==> Bit(a, j) != Bit(b, j)
  {
  }

  /** `b & ~(1UL << sq)`: the board without square `sq`. */
  function ClearSquare(b: bv64, sq: Square): bv64 {
    b & !SquareBit(sq)
  }

  /** `b | (1UL << sq)`: the board with square `sq` added. */
  function SetSquare(b: bv64, sq: Square): bv64 {
    b | SquareBit(sq)
  }

  lemma ClearAt(b: bv64, cleared: bv64, sq: Square, j: Square)
    requires cleared == b & !SquareBit(sq)
    ensures Bit(cleared, j) <==> Bit(b, j) && j != sq
  {
    hide Bit;
    NotAt(SquareBit(sq), j);
    AndAt(b, !SquareBit(sq), j);
  }

  lemma ClearSquareAt(b: bv64, sq: Square, j: Square)
    ensures Bit(ClearSquare(b, sq), j) <==> Bit(b, j) && j != sq
  {
    ClearAt(b, ClearSquare(b, sq), sq, j);
  }

  lemma SetSquareAt(b: bv64, sq: Square, j: Square)
    ensures Bit(SetSquare(b, sq), j) <==> Bit(b, j) || j == sq
  {
    OrAt(b, SquareBit(sq), j);
  }

  /** Moving a square from `from` to `to` on one board. */
  lemma MoveSquareAt(b: bv64, from: Square, to: Square, j: Square)
    ensures Bit(SetSquare(ClearSquare(b, from), to), j) <==> (Bit(b, j) && j != from) || j == to
  {
    ClearSquareAt(b, from, j);
    SetSquareAt(ClearSquare(b, from), to, j);
  }

  /** Subtracting a set square's bit clears it: no borrow can occur. */
  lemma SubtractSetBit(b: bv64, bit: bv64, sq: Square, lifted: bv64)
    requires bit == SquareBit(sq) && Bit(b, sq) && lifted == b - bit
    ensures lifted == ClearSquare(b, sq)
  {
  }

  /** Adding a clear square's bit sets it: no carry can occur. */
  lemma AddClearBit(b: bv64, bit: bv64, sq: Square, landed: bv64)
    requires bit == SquareBit(sq) && !Bit(b, sq) && landed == b + bit
    ensures landed == SetSquare(b, sq)
  {
  }

  /**
   * make_move moves a square of a colour board arithmetically,
   * `color_board - from_bit + to_bit`; with `from` set and `to` clear this is
   * removing `from` and adding `to`.
   */
  lemma ColourArithmetic(cb: bv64, fromBit: bv64, toBit: bv64, from: Square, to: Square, lifted: bv64, moved: bv64)
    requires fromBit == SquareBit(from) && toBit == SquareBit(to)
    requires Bit(cb, from) && !Bit(cb, to)
    requires lifted == cb - fromBit && moved == lifted + toBit
    ensures moved == SetSquare(ClearSquare(cb, from), to)
  {
    SubtractSetBit(cb, fromBit, from, lifted);
    ClearSquareAt(cb, from, to);
    AddClearBit(lifted, toBit, to, moved);
  }

  /** The square on the given file and rank. */
  function At(file: bv6, rank: bv6): (sq: Square)
    requires file < 8 && rank < 8
    ensures FileOf(sq) == file && RankOf(sq) == rank
  {
    (rank << 3) | file
  }

  // File masks (lichess_bot_refactored/src/dataStructs.c)
  const NotAFile: bv64 := 0xfefefefefefefefe
  const NotAbFile: bv64 := 0xfcfcfcfcfcfcfcfc
  const NotHFile: bv64 := 0x7f7f7f7f7f7f7f7f
  const NotHgFile: bv64 := 0x3f3f3f3f3f3f3f3f

  /** Each file mask holds exactly the squares off the named files. */
  lemma FileMasksExact(sq: Square)
    ensures Bit(NotAFile, sq) <==> FileOf(sq) != 0
    ensures Bit(NotAbFile, sq) <==> FileOf(sq) >= 2
    ensures Bit(NotHFile, sq) <==> FileOf(sq) != 7
    ensures Bit(NotHgFile, sq) <==> FileOf(sq) < 6
  {
  }

  /** The de Bruijn multiplier shared by both bit scans. */
  const DeBruijn64: bv64 := 0x03f79d71b4cb0a89

  /** LS1Bindex64: maps the top six bits of a de Bruijn product back to a square. */
  const LS1BIndex64: seq<Square> :=
    [ 0, 47,  1, 56, 48, 27,  2, 60] +
    [57, 49, 41, 37, 28, 16,  3, 61] +
    [54, 58, 35, 52, 50, 42, 21, 44] +
    [38, 32, 29, 23, 17, 11,  4, 62] +
    [46, 55, 26, 59, 40, 36, 15, 53] +
    [34, 51, 20, 43, 31, 22, 10, 45] +
    [25, 39, 14, 33, 19, 30,  9, 24] +
    [13, 18,  8, 12,  7,  6,  5, 63]

  /** The bitboard holding squares 0 .. k, i.e. `b ^ (b - 1)` for a board whose lowest bit is k. */
  function LowMask(k: Square): bv64 {
    ((1 as bv64) << ((k as bv8) + 1)) - 1
  }

  lemma LowMaskExact(k: Square, j: Square)
    ensures Bit(LowMask(k), j) <==> j <= k
  {
  }

  /** Index into LS1BIndex64 that a bit scan computes from `x`: the top six bits of `x * DeBruijn64`. */
  function DeBruijnSlot(x: bv64): nat {
    ((x * DeBruijn64) >> 58) as nat
  }

  /**
   * The table inverts the de Bruijn hash on every low mask: this is what
   * both bit scans rely on.
   */
  lemma TableInverts(k: Square)
    ensures DeBruijnSlot(LowMask(k)) < 64 && LS1BIndex64[DeBruijnSlot(LowMask(k))] == k
  {
  }

  /** The 64 table entries are distinct, so the table is a permutation of the squares. */
  lemma TableIsPermutation()
    ensures |LS1BIndex64| == 64
    ensures forall sq: Square :: sq in LS1BIndex64
  {
    forall sq: Square ensures sq in LS1BIndex64 {
      TableInverts(sq);
    }
  }
}
