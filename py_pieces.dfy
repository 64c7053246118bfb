/**
 * The pieces and the board of the Python engine (ChessEngine.py): the six
 * piece classes with their colour, `hasMoved` flag, point value and move
 * tables, and the 8x8 list-of-lists board the engine reads and mutates.
 */
module PyPieces {
  import opened DataStructs

  datatype Colour = White | Black

  datatype Kind = King | Queen | Bishop | Knight | Rook | Pawn

  /**
   * A piece object. `hasMoved` is read only for pawns, kings and rooks (the
   * classes that define it); pieces are values here, see README for aliasing.
   */
  datatype Piece = Piece(kind: Kind, colour: Colour, hasMoved: bool)

  /** A square of the board: `None` or a piece. */
  type Cell = Option<Piece>

  /** A (row, column) displacement. */
  type Offset = (int, int)

  /** A freshly constructed piece, as `King('w')` and friends build it. */
  function NewPiece(kind: Kind, colour: Colour): (p: Piece)
    ensures p.kind == kind && p.colour == colour && !p.hasMoved
  {
    Piece(kind, colour, false)
  }

  /** The point value set by each constructor: positive for white, negative for black. */
  function Points(p: Piece): (points: int)
    ensures p.colour == White <==> points > 0
    ensures -900 <= points <= 900
  {
    var value := match p.kind
      case King => 900
      case Queen => 90
      case Bishop => 30
      case Knight => 30
      case Rook => 50
      case Pawn => 10;
    if p.colour == White then value else -value
  }

  // ---------------------------------------------------------------------------
  // Geometry of displacements

  function Abs(x: int): nat { if x < 0 then -x else x }

  function Sign(x: int): int { if x > 0 then 1 else if x < 0 then -1 else 0 }

  /** The number of unit steps a displacement along a line takes. */
  function Steps(d: Offset): nat { if Abs(d.0) >= Abs(d.1) then Abs(d.0) else Abs(d.1) }

  /** A non-zero displacement along a rank, a file or a diagonal. */
  predicate IsLine(d: Offset) { d != (0, 0) && (d.0 == 0 || d.1 == 0 || Abs(d.0) == Abs(d.1)) }

  /** The coordinate `k` unit steps from `x` in direction `u` (one of -1, 0, 1). */
  function Along(x: int, u: int, k: int): int { if u > 0 then x + k else if u < 0 then x - k else x }

  /** Walking `Steps(d)` unit steps in the direction of a line displacement lands on it. */
  lemma LineReach(d: Offset)
    requires IsLine(d)
    ensures Along(0, Sign(d.0), Steps(d)) == d.0 && Along(0, Sign(d.1), Steps(d)) == d.1
  {
  }

  // ---------------------------------------------------------------------------
  // Move tables, in the order the constructors build them

  /** King.moves: the eight neighbouring displacements, row-major. */
  function KingOffsets(): seq<Offset> {
    [(-1, -1), (-1, 0), (-1, 1), (0, -1), (0, 1), (1, -1), (1, 0), (1, 1)]
  }

  /** Knight.moves: the eight (1, 2) jumps, row-major. */
  function KnightOffsets(): seq<Offset> {
    [(-2, -1), (-2, 1), (-1, -2), (-1, 2), (1, -2), (1, 2), (2, -1), (2, 1)]
  }

  /** Distances 1 to 7 in direction `u`. */
  function Ray(u: Offset): seq<Offset> {
    [(u.0, u.1), (2 * u.0, 2 * u.1), (3 * u.0, 3 * u.1), (4 * u.0, 4 * u.1),
     (5 * u.0, 5 * u.1), (6 * u.0, 6 * u.1), (7 * u.0, 7 * u.1)]
  }

  /** The rays of `dirs`, one direction after the other. */
  function Rays(dirs: seq<Offset>): seq<Offset>
    decreases |dirs|
  {
    if dirs == [] then [] else Ray(dirs[0]) + Rays(dirs[1..])
  }

  /** Queen.moves: the rays of the eight king directions. */
  function QueenOffsets(): seq<Offset> { Rays(KingOffsets()) }

  /** Bishop.moves: the four diagonal rays. */
  function BishopOffsets(): seq<Offset> { Rays([(-1, -1), (-1, 1), (1, -1), (1, 1)]) }

  /** Rook.moves: the two vertical rays, then the two horizontal ones. */
  function RookOffsets(): seq<Offset> { Rays([(-1, 0), (1, 0)]) + Rays([(0, -1), (0, 1)]) }

  /** The row direction of a pawn: up the list for white, down for black. */
  function Forward(c: Colour): int { if c == White then -1 else 1 }

  function PawnAttacks(c: Colour): seq<Offset> { [(Forward(c), 1), (Forward(c), -1)] }

  function PawnDouble(c: Colour): seq<Offset> { [(2 * Forward(c), 0)] }

  /** The `moves` list of a piece. */
  function Moves(p: Piece): seq<Offset> {
    match p.kind
    case King => KingOffsets()
    case Queen => QueenOffsets()
    case Bishop => BishopOffsets()
    case Knight => KnightOffsets()
    case Rook => RookOffsets()
    case Pawn => [(Forward(p.colour), 0)]
  }

  /** The king table is the eight displacements of one step. */
  lemma KingOffsetsAre(d: Offset)
    ensures d in KingOffsets() <==> IsLine(d) && Steps(d) == 1
  {
  }

  /** The knight table is the eight (1, 2) jumps. */
  lemma KnightOffsetsAre(d: Offset)
    ensures d in KnightOffsets() <==> (Abs(d.0) == 1 && Abs(d.1) == 2) || (Abs(d.0) == 2 && Abs(d.1) == 1)
  {
  }

  /** A ray holds the line displacements of one to seven steps in its direction. */
  lemma RayHas(u: Offset, d: Offset)
    requires u in KingOffsets()
    ensures d in Ray(u) <==> IsLine(d) && Steps(d) <= 7 && Sign(d.0) == u.0 && Sign(d.1) == u.1
  {
    if d in Ray(u) {
      RayEntries(u, d);
    }
    if IsLine(d) && Steps(d) <= 7 && Sign(d.0) == u.0 && Sign(d.1) == u.1 {
      RayReaches(u, d);
    }
  }

  lemma RayEntries(u: Offset, d: Offset)
    requires u in KingOffsets() && d in Ray(u)
    ensures IsLine(d) && Steps(d) <= 7 && Sign(d.0) == u.0 && Sign(d.1) == u.1
  {
    var i :| 0 <= i < 7 && Ray(u)[i] == d;
    RayAt(u, i);
  }

  /** Entry `i` of a ray is `i + 1` steps along it. */
  lemma RayAt(u: Offset, i: int)
    requires -1 <= u.0 <= 1 && -1 <= u.1 <= 1 && 0 <= i < 7
    ensures Ray(u)[i] == (Along(0, u.0, i + 1), Along(0, u.1, i + 1))
  {
  }

  lemma RayReaches(u: Offset, d: Offset)
    requires u in KingOffsets()
    requires IsLine(d) && Steps(d) <= 7 && Sign(d.0) == u.0 && Sign(d.1) == u.1
    ensures d in Ray(u)
  {
    LineReach(d);
    assert d == Ray(u)[Steps(d) - 1];
  }

  lemma {:induction false} RaysHas(dirs: seq<Offset>, d: Offset)
    ensures d in Rays(dirs) <==> exists u :: u in dirs && d in Ray(u)
    decreases |dirs|
  {
    if dirs != [] {
      RaysHas(dirs[1..], d);
      assert forall u :: u in dirs <==> u == dirs[0] || u in dirs[1..];
    }
  }

  /** The direction of a line displacement is a king step. */
  lemma DirectionOfLine(d: Offset)
    requires IsLine(d)
    ensures (Sign(d.0), Sign(d.1)) in KingOffsets()
  {
  }

  /** The queen table is every line displacement of at most seven steps. */
  lemma QueenOffsetsAre(d: Offset)
    ensures d in QueenOffsets() <==> IsLine(d) && Steps(d) <= 7
  {
    RaysHas(KingOffsets(), d);
    if d in QueenOffsets() {
      var u :| u in KingOffsets() && d in Ray(u);
      RayHas(u, d);
    }
    if IsLine(d) && Steps(d) <= 7 {
      DirectionOfLine(d);
      RayHas((Sign(d.0), Sign(d.1)), d);
    }
  }

  /** The bishop table is every diagonal displacement of at most seven steps. */
  lemma BishopOffsetsAre(d: Offset)
    ensures d in BishopOffsets() <==> IsLine(d) && Steps(d) <= 7 && Abs(d.0) == Abs(d.1)
  {
    var dirs := [(-1, -1), (-1, 1), (1, -1), (1, 1)];
    RaysHas(dirs, d);
    if d in BishopOffsets() {
      var u :| u in dirs && d in Ray(u);
      RayHas(u, d);
    }
    if IsLine(d) && Steps(d) <= 7 && Abs(d.0) == Abs(d.1) {
      assert (Sign(d.0), Sign(d.1)) in dirs;
      RayHas((Sign(d.0), Sign(d.1)), d);
    }
  }

  /** The rook table is every rank or file displacement of at most seven steps. */
  lemma RookOffsetsAre(d: Offset)
    ensures d in RookOffsets() <==> IsLine(d) && Steps(d) <= 7 && (d.0 == 0 || d.1 == 0)
  {
    var vertical, horizontal := [(-1, 0), (1, 0)], [(0, -1), (0, 1)];
    RaysHas(vertical, d);
    RaysHas(horizontal, d);
    if d in RookOffsets() {
      var u :| (u in vertical || u in horizontal) && d in Ray(u);
      RayHas(u, d);
    }
    if IsLine(d) && Steps(d) <= 7 && (d.0 == 0 || d.1 == 0) {
      assert (Sign(d.0), Sign(d.1)) in vertical + horizontal;
      RayHas((Sign(d.0), Sign(d.1)), d);
    }
  }

  /** Every entry of a table other than the knight's is a line displacement. */
  lemma MovesAreLines(p: Piece, d: Offset)
    requires p.kind != Knight && d in Moves(p)
    ensures IsLine(d) && Steps(d) <= 7
  {
    match p.kind
    case King => KingOffsetsAre(d);
    case Queen => QueenOffsetsAre(d);
    case Bishop => BishopOffsetsAre(d);
    case Rook => RookOffsetsAre(d);
    case Pawn =>
  }

  // ---------------------------------------------------------------------------
  // The board

  /** The rows of the board, each a list of eight cells. */
  type Rows = seq<seq<Cell>>

  predicate Square8(g: Rows) { |g| == 8 && forall r :: 0 <= r < 8 ==> |g[r]| == 8 }

  predicate InBoard(r: int, c: int) { 0 <= r < 8 && 0 <= c < 8 }

  /** `board[r][c] = x`. */
  function Put(g: Rows, r: int, c: int, x: Cell): (h: Rows)
    requires Square8(g) && InBoard(r, c)
    ensures Square8(h) && h[r][c] == x
    ensures forall i, j :: InBoard(i, j) && (i != r || j != c) ==> h[i][j] == g[i][j]
  {
    g[r := g[r][c := x]]
  }

  /** `board[nr][nc] = board[r][c]; board[r][c] = None`. */
  function Moved(g: Rows, r: int, c: int, nr: int, nc: int): Rows
    requires Square8(g) && InBoard(r, c) && InBoard(nr, nc)
  {
    Put(Put(g, nr, nc, g[r][c]), r, c, None)
  }

  /** Two boards that agree on every square are equal. */
  lemma SameRows(a: Rows, b: Rows)
    requires Square8(a) && Square8(b)
    requires forall i, j :: InBoard(i, j) ==> a[i][j] == b[i][j]
    ensures a == b
  {
    forall i | 0 <= i < 8 ensures a[i] == b[i] {
      assert forall j | 0 <= j < 8 :: a[i][j] == b[i][j] by {
        forall j | 0 <= j < 8 ensures a[i][j] == b[i][j] {
          assert InBoard(i, j);
        }
      }
    }
  }

  /** The moved piece lands on the destination, the origin is emptied and nothing else changes. */
  lemma MovedSquares(g: Rows, r: int, c: int, nr: int, nc: int)
    requires Square8(g) && InBoard(r, c) && InBoard(nr, nc)
    ensures Square8(Moved(g, r, c, nr, nc))
    ensures Moved(g, r, c, nr, nc)[r][c] == None
    ensures (nr != r || nc != c) ==> Moved(g, r, c, nr, nc)[nr][nc] == g[r][c]
    ensures forall i, j :: InBoard(i, j) && (i != r || j != c) && (i != nr || j != nc) ==>
      Moved(g, r, c, nr, nc)[i][j] == g[i][j]
  {
  }

  /** Undoing a move as the engine does (`board[r][c] = board[nr][nc]; board[nr][nc] = temp`) restores the board. */
  lemma UndoRestores(g: Rows, r: int, c: int, nr: int, nc: int)
    requires Square8(g) && InBoard(r, c) && InBoard(nr, nc)
    ensures var m := Moved(g, r, c, nr, nc); Put(Put(m, r, c, m[nr][nc]), nr, nc, g[nr][nc]) == g
  {
    var m := Moved(g, r, c, nr, nc);
    var u := Put(Put(m, r, c, m[nr][nc]), nr, nc, g[nr][nc]);
    SameRows(u, g);
  }

  /** The board list that the engine's functions read and mutate in place. */
  class Grid {
    var cells: Rows

    constructor (cells: Rows)
      ensures this.cells == cells
    {
      this.cells := cells;
    }
  }
}
