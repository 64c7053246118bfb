# Chess engines of CasperWong-jpg/Chess, modelled in Dafny

The repository holds several chess engines written by one author, and this
project models the core of each of them.

- **Bitboard engine in C.** It has two generations:
  - `lichess_bot_C/src/board_manipulations.c`;
  - `lichess_bot_refactored/src/ChessEngine.c` and `dev_tools.c`.

  A position is fourteen 64-bit boards: six piece kinds and one union board
  per colour. The engine has bit scans and line masks, `make_move`, pseudo-
  and fully legal move generation, and a fixed-depth negamax search. It reads
  FEN and prints square names.
- **Early drafts of the C engine.** These are
  `lichess_bot_refactored/ChessEngine.c`, `board_manipulations.c` and
  `dataStructs.c`.
- **Chained hash dictionary** in `lichess_bot_refactored/src/lib/hdict.c`. The
  dictionary is generic in its entries. The client supplies the key, hash and
  key-equivalence functions.
- **Python engine** in `ChessEngine.py`. It works on an 8×8 grid of piece
  objects and has:
  - move generation per piece kind;
  - check detection and the special rules (castling, promotion);
  - a minimax search that alternates max and min.
- **Command-line and lichess fronts of the Python engine.** These are
  `simple-main.py` and `lichess_bot_Python/engines/simple_main.py`. They
  build boards, read FEN into the grid and translate moves to and from UCI.

## How the model is organised

| file | module | models |
|---|---|---|
| data_structs.dfy | DataStructs | square numbering, the fourteen board indices, file masks, the de Bruijn table |
| board_manipulations.dfy | BoardManipulations | bit scans, popCount, masks and rays, `make_move` on an `array<bv64>` |
| chess_engine.dfy | ChessEngine | pseudo-legal targets of knights, kings and pawns, and the sliding pieces through rays cut at the nearest blocker |
| move_generation.dfy | MoveGeneration | material evaluation, the per-kind generator table, `isInCheck`, `checkMoveLegal` and `getMoves` |
| search.dfy | Search | `negaMax`, its `INT_MIN` sentinel, and the root search of `AIMove` |
| fen_tools.dfy | FenTools | `flipVertical`, `fen2bit`, the castling field, square names |
| early_drafts.dfy | EarlyDrafts | the first draft: the knight pattern and walk, `isLegalKnightMove`, the decimal file masks and `move_info` |
| py_pieces.dfy | PyPieces | the Python board grid, the piece classes, their points and move tables |
| py_rules.dfy | PyRules | `isLegalMove`, `findKing`, `isInCheck` and `tryMove` |
| py_moves.dfy | PyMoves | `generateMoves`, `specialRules` and `tryCrazyhouseMove` |
| py_search.dfy | PySearch | `positionEvaluation` and `maxi`/`mini` |
| simple_main.dfy | SimpleMain | board set-up, `makeBoardFromFen`, UCI translation (lichess front) |
| simple_main_cli.dfy | SimpleMainCli | UCI translation of the command-line front |

| hdict.dfy | HashDict | the chained hash dictionary, as a class over an array of chains |

`makeBoard` and `movePiece` of `simple-main.py` (lines 9-29 and 81-83) are
the same code as in `lichess_bot_Python/engines/simple_main.py`, so
`SimpleMain.MakeBoard` and `SimpleMain.MovePiece` model both.

Machine integers are modelled by width:
- 64-bit boards are `bv64`;
- squares are `bv6`;
- C `int` scores and sizes are unbounded `int`, except where wrap-around matters. Those cases are listed under Findings.

C's `REQUIRES` and `ASSERT` checks become preconditions. Parse failures and
NULL results become `Option`.

## Model

| member | source | states |
|---|---|---|
| DataStructs.SquareBit | lichess_bot_C/src/board_manipulations.c:90-91 | `1UL << sq` has exactly the one square `sq` set |
| DataStructs.At | lichess_bot_refactored/dataStructs.h:20-29 | the square built from a file and a rank has that file and that rank |
| DataStructs.ColourArithmetic | lichess_bot_C/src/board_manipulations.c:111 | with the origin occupied and the destination free (the two ASSERTs), `color_board - from_bit + to_bit` is the board with the origin cleared and the destination set, because no borrow or carry happens |
| DataStructs.FileMasksExact | lichess_bot_refactored/src/dataStructs.c:4-7 | each of the four file masks holds exactly the squares off its named files: not a, not a/b, not h, not g/h |
| DataStructs.LowMaskExact | lichess_bot_C/src/board_manipulations.c:17 | `bb ^ (bb - 1)` for lowest square k, written LowMask(k), holds exactly the squares 0..k |
| DataStructs.TableInverts | lichess_bot_refactored/src/dataStructs.c:9-18 | for every square k, the top six bits of `LowMask(k) * debruijn64` index the entry k of LS1Bindex64 |
| DataStructs.TableIsPermutation | lichess_bot_refactored/src/dataStructs.c:9-18 | the 64-entry table holds every square, so it is a permutation |
| BoardManipulations.Lowest | lichess_bot_C/src/board_manipulations.c:14-18 | every non-empty board has a least significant set square (reference for bitScanForward) |
| BoardManipulations.LowestUnique | lichess_bot_C/src/board_manipulations.c:14-18 | the least significant set square is unique |
| BoardManipulations.IsolateLowest | lichess_bot_C/src/board_manipulations.c:17 | `bb ^ (bb - 1)` is the low mask up to the lowest set square |
| BoardManipulations.BitScanForward | lichess_bot_C/src/board_manipulations.c:14-18 | for a non-empty board (the REQUIRES), the de Bruijn lookup returns the lowest set square |
| BoardManipulations.ScanForwardSlot | lichess_bot_C/src/board_manipulations.c:17 | the table index computed from `bb ^ (bb-1)` is in range and names the lowest set square |
| BoardManipulations.SmearIsLowMask | lichess_bot_C/src/board_manipulations.c:24-29 | the six or-shift steps turn a board into the low mask of its highest set square |
| BoardManipulations.LowMaskUnique | lichess_bot_C/src/board_manipulations.c:24-30 | a run of ones from bit 0 that covers the board and ends at its top bit can only be that low mask |
| BoardManipulations.BitScanReverse | lichess_bot_C/src/board_manipulations.c:21-31 | for a non-empty board, the smear-and-lookup returns the highest set square |
| BoardManipulations.ScanReverseSlot | lichess_bot_C/src/board_manipulations.c:30 | the table index computed from the smeared board is in range and names the highest set square |
| BoardManipulations.ScansAgreeOnSingleton | lichess_bot_C/src/board_manipulations.c:14-31 | on a one-square board, both scans return that square |
| BoardManipulations.ClearLowestAt | lichess_bot_C/src/board_manipulations.c:38 | `bb &= bb - 1` clears the lowest set square and keeps every other square |
| BoardManipulations.ClearLowestDecreases | lichess_bot_C/src/board_manipulations.c:36-39 | `bb & (bb - 1)` is strictly smaller than a non-empty `bb`, so popCount's loop ends |
| BoardManipulations.SetSquaresExact | lichess_bot_C/src/board_manipulations.c:36-39 | the squares visited by repeatedly clearing the lowest bit are exactly the set squares |
| BoardManipulations.SetSquaresAscending | lichess_bot_C/src/board_manipulations.c:36-39 | those squares come in strictly ascending order |
| BoardManipulations.TailAbove | lichess_bot_C/src/board_manipulations.c:38 | every square left after clearing the lowest one lies above it |
| BoardManipulations.PopCount | lichess_bot_C/src/board_manipulations.c:34-41 | the Kernighan loop returns the number of set squares |
| BoardManipulations.SetSquaresAtMost64 | lichess_bot_C/src/board_manipulations.c:34-41 | a board has at most 64 set squares |
| BoardManipulations.AscendingFloor | lichess_bot_C/src/board_manipulations.c:36-39 | in the ascending square list, entry i is square i or later |
| BoardManipulations.RankMask | lichess_bot_C/src/board_manipulations.c:47 | the mask holds exactly the squares on the rank of `sq` |
| BoardManipulations.FileMask | lichess_bot_C/src/board_manipulations.c:49 | the mask holds exactly the squares on the file of `sq` |
| BoardManipulations.DiagonalMask | lichess_bot_C/src/board_manipulations.c:51-57 | the sign-split shifts give exactly the squares with file − rank equal to that of `sq` |
| BoardManipulations.AntiDiagMask | lichess_bot_C/src/board_manipulations.c:59-65 | the sign-split shifts give exactly the squares with file + rank equal to that of `sq` |
| BoardManipulations.Above | lichess_bot_C/src/board_manipulations.c:68 | `-2UL << sq` holds exactly the squares above `sq` |
| BoardManipulations.Below | lichess_bot_C/src/board_manipulations.c:70 | `(1UL << sq) - 1` holds exactly the squares below `sq` |
| BoardManipulations.NorthRay | lichess_bot_C/src/board_manipulations.c:68 | exactly the squares on the file of `sq` above it |
| BoardManipulations.SouthRay | lichess_bot_C/src/board_manipulations.c:70 | exactly the squares on the file of `sq` below it |
| BoardManipulations.EastRay | lichess_bot_C/src/board_manipulations.c:72 | exactly the squares on the rank of `sq` above it |
| BoardManipulations.WestRay | lichess_bot_C/src/board_manipulations.c:74 | exactly the squares on the rank of `sq` below it |
| BoardManipulations.NorthEastRay | lichess_bot_C/src/board_manipulations.c:76 | exactly the squares on the diagonal of `sq` above it |
| BoardManipulations.SouthWestRay | lichess_bot_C/src/board_manipulations.c:78 | exactly the squares on the diagonal of `sq` below it |
| BoardManipulations.NorthWestRay | lichess_bot_C/src/board_manipulations.c:80 | exactly the squares on the anti-diagonal of `sq` above it |
| BoardManipulations.SouthEastRay | lichess_bot_C/src/board_manipulations.c:82 | exactly the squares on the anti-diagonal of `sq` below it |
| BoardManipulations.OwnAll | lichess_bot_C/src/board_manipulations.c:112 | the colour board written is whiteAll for a white piece and blackAll for a black one |
| BoardManipulations.EnemyBase | lichess_bot_C/src/board_manipulations.c:89-118 | the capture loop starts at blackPawns when white moves and at whitePawns when black moves |
| BoardManipulations.Landing | lichess_bot_C/src/board_manipulations.c:97-105 | a white pawn reaching rank 8 or a black pawn reaching rank 1 lands on its queen board; any other move lands on the mover's board |
| BoardManipulations.CaptureStep | lichess_bot_C/src/board_manipulations.c:115-118 | one more iteration of the capture loop clears the destination on one more enemy board and touches nothing else |
| BoardManipulations.ApplyMoveMover | lichess_bot_C/src/board_manipulations.c:96-105 | the mover's board loses the origin, and gains the destination unless the move promotes |
| BoardManipulations.ApplyMoveLanding | lichess_bot_C/src/board_manipulations.c:97-102 | on promotion the queen board gains the destination |
| BoardManipulations.ApplyMoveOwnAll | lichess_bot_C/src/board_manipulations.c:108-112 | the mover's colour board loses the origin and gains the destination |
| BoardManipulations.ApplyMoveEnemies | lichess_bot_C/src/board_manipulations.c:115-118 | every board of the other colour loses the destination |
| BoardManipulations.ApplyMoveOthers | lichess_bot_C/src/board_manipulations.c:88-119 | no other board changes |
| BoardManipulations.ApplyMoveBoards | lichess_bot_C/src/board_manipulations.c:88-119 | the specification of make_move satisfies all of these board equations together |
| BoardManipulations.MoveBoardsAt | lichess_bot_C/src/board_manipulations.c:88-119 | square by square: what each board holds after any result that meets the board equations |
| BoardManipulations.ApplyMoveAt | lichess_bot_C/src/board_manipulations.c:88-119 | what make_move does to square j of board i: the mover leaves the origin, the landing and colour boards gain the destination, enemies lose it, and nothing else changes |
| BoardManipulations.MovePiece | lichess_bot_C/src/board_manipulations.c:94-105 | the first block updates the array in place to the mover's and landing boards of the specification; the two ASSERTs are preconditions |
| BoardManipulations.ShiftColourSquare | lichess_bot_C/src/board_manipulations.c:108-111 | the arithmetic colour-board update equals clearing the origin and setting the destination |
| BoardManipulations.CaptureEnemies | lichess_bot_C/src/board_manipulations.c:114-118 | the loop leaves the array equal to the capture specification after all seven enemy boards |
| BoardManipulations.MakeMove | lichess_bot_C/src/board_manipulations.c:88-119 | make_move on the fourteen-board array leaves exactly ApplyMove of the old position |
| BoardManipulations.ConsistentElsewhere | lichess_bot_C/src/board_manipulations.c:88-119 | squares other than the origin and the destination keep their consistency between piece and colour boards |
| BoardManipulations.ConsistentAtOrigin | lichess_bot_C/src/board_manipulations.c:96-111 | the origin is empty on every board of both colours afterwards |
| BoardManipulations.ConsistentAtDestination | lichess_bot_C/src/board_manipulations.c:97-118 | the destination is held by the landing board alone and by the mover's colour board |
| BoardManipulations.MovePreservesWellFormed | lichess_bot_C/src/board_manipulations.c:88-119 | starting from a well-formed position (every occupied square on exactly one piece board and on its colour board), make_move gives a well-formed position |
| ChessEngine.ColourAll | lichess_bot_refactored/src/ChessEngine.c:138 | `whiteAll + !whiteToMove * colorOffset` names the mover's colour board: whiteAll for white, blackAll for black |
| ChessEngine.SideSteps1At | lichess_bot_refactored/src/ChessEngine.c:140-144 | `h1` from one knight holds exactly the squares one file away on the same rank, with no wrap across the board edge |
| ChessEngine.SideSteps2At | lichess_bot_refactored/src/ChessEngine.c:141-145 | `h2` holds exactly the squares two files away on the same rank, with no wrap |
| ChessEngine.KnightShifts | lichess_bot_refactored/src/ChessEngine.c:146 | the knight pattern is `h1` shifted two ranks up or down, or `h2` shifted one rank up or down |
| ChessEngine.KnightTargetsAt | lichess_bot_refactored/src/ChessEngine.c:139-146 | the knight pattern holds exactly the squares a knight's jump away (one file and two ranks, or two files and one rank) |
| ChessEngine.KnightMoves | lichess_bot_refactored/src/ChessEngine.c:137-148 | generateKnightMoves gives exactly the knight's jumps that do not land on a friendly piece |
| ChessEngine.KingRowAt | lichess_bot_refactored/src/ChessEngine.c:164-167 | `h1` holds exactly the king's square and its side neighbours on the same rank |
| ChessEngine.KingShifts | lichess_bot_refactored/src/ChessEngine.c:168 | the king pattern is `h1` and its shifts one rank up and down, less the king's own square |
| ChessEngine.KingTargetsAt | lichess_bot_refactored/src/ChessEngine.c:164-168 | the king pattern holds exactly the eight neighbouring squares that exist on the board |
| ChessEngine.KingMoves | lichess_bot_refactored/src/ChessEngine.c:160-170 | generateKingMoves gives exactly the neighbouring squares not held by a friendly piece; the castling argument is ignored |
| ChessEngine.EmptySquaresAt | lichess_bot_refactored/src/ChessEngine.c:214 | a square is empty exactly when neither colour board holds it |
| ChessEngine.RankConstantsAt | lichess_bot_refactored/src/ChessEngine.c:181-195 | `rank4` and `rank5` hold exactly the squares of ranks 4 and 5 |
| ChessEngine.WSinglePushAt | lichess_bot_refactored/src/ChessEngine.c:176-178 | a single-push target is an empty square directly above a white pawn |
| ChessEngine.WSecondStepAt | lichess_bot_refactored/src/ChessEngine.c:180-184 | a double-push target is an empty rank-4 square above a single-push target |
| ChessEngine.WDoublePushAt | lichess_bot_refactored/src/ChessEngine.c:180-184 | equivalently, an empty rank-4 square with an empty square below it and a white pawn two ranks below |
| ChessEngine.WAttackAt | lichess_bot_refactored/src/ChessEngine.c:186-188 | an attack target is an enemy square diagonally above a white pawn, with the file masks stopping wrap-around |
| ChessEngine.BSinglePushAt | lichess_bot_refactored/src/ChessEngine.c:190-192 | a single-push target is an empty square directly below a black pawn |
| ChessEngine.BSecondStepAt | lichess_bot_refactored/src/ChessEngine.c:194-198 | a double-push target is an empty rank-5 square below a single-push target |
| ChessEngine.BDoublePushAt | lichess_bot_refactored/src/ChessEngine.c:194-198 | equivalently, an empty rank-5 square with an empty square above it and a black pawn two ranks above |
| ChessEngine.BAttackAt | lichess_bot_refactored/src/ChessEngine.c:200-202 | an attack target is an enemy square diagonally below a black pawn, without wrap-around |
| ChessEngine.WhitePushGeometry | lichess_bot_refactored/src/ChessEngine.c:176-184 | the shift conditions mean one square up, or two squares up from rank 2 |
| ChessEngine.WhiteAttackGeometry | lichess_bot_refactored/src/ChessEngine.c:186-188 | the shift-and-mask conditions mean one rank up and one file to either side |
| ChessEngine.BlackPushGeometry | lichess_bot_refactored/src/ChessEngine.c:190-198 | one square down, or two squares down from rank 7 |
| ChessEngine.BlackAttackGeometry | lichess_bot_refactored/src/ChessEngine.c:200-202 | one rank down and one file to either side |
| ChessEngine.WhiteSingleAt | lichess_bot_refactored/src/ChessEngine.c:213-215 | for one pawn, the single-push set is the free square in front |
| ChessEngine.WhiteDoubleAt | lichess_bot_refactored/src/ChessEngine.c:213-215 | for one pawn on rank 2, the double-push set is the square two ahead when both squares are free |
| ChessEngine.WhiteCaptureAt | lichess_bot_refactored/src/ChessEngine.c:216 | for one pawn, the attack set is the black-occupied squares diagonally ahead |
| ChessEngine.BlackSingleAt | lichess_bot_refactored/src/ChessEngine.c:224-226 | for one black pawn, the single-push set is the free square in front |
| ChessEngine.BlackDoubleAt | lichess_bot_refactored/src/ChessEngine.c:224-226 | for one black pawn on rank 7, the square two ahead when both squares are free |
| ChessEngine.BlackCaptureAt | lichess_bot_refactored/src/ChessEngine.c:227 | the white-occupied squares diagonally ahead of a black pawn |
| ChessEngine.WhitePawnMovesAt | lichess_bot_refactored/src/ChessEngine.c:212-218 | generateWhitePawnMoves gives exactly the pushes and captures of the pawn |
| ChessEngine.BlackPawnMovesAt | lichess_bot_refactored/src/ChessEngine.c:223-229 | generateBlackPawnMoves gives exactly the pushes and captures of the black pawn |
| ChessEngine.PawnMoves | lichess_bot_refactored/src/ChessEngine.c:234-238 | generatePawnMoves gives exactly the pawn steps of the side to move; en passant is ignored |
| ChessEngine.RayBoardAt | lichess_bot_C/src/board_manipulations.c:68-82 | each of the eight ray functions holds exactly the squares past `sq` on its line in its direction |
| ChessEngine.LineTransitive | lichess_bot_refactored/src/ChessEngine.c:71 | a square on the ray's line through the blocker is on the line through the slider, and back |
| ChessEngine.RayFromRay | lichess_bot_refactored/src/ChessEngine.c:71 | the ray from a blocker is the part of the slider's ray beyond the blocker |
| ChessEngine.BlockersAt | lichess_bot_refactored/src/ChessEngine.c:64 | `attack & occupied` holds exactly the occupied squares of the ray |
| ChessEngine.NearestIsFirstBlocker | lichess_bot_refactored/src/ChessEngine.c:65-69 | scanning forward on a positive ray, or in reverse on a negative one, finds the occupied square nearest the slider |
| ChessEngine.CutAtBlocker | lichess_bot_refactored/src/ChessEngine.c:71 | the ray less the blocker's ray is exactly the squares the slider reaches: up to and including the first piece |
| ChessEngine.CutRayAt | lichess_bot_refactored/src/ChessEngine.c:71 | `attack ^ ray(block_sq)` is exactly the reachable squares |
| ChessEngine.UnblockedRayAt | lichess_bot_refactored/src/ChessEngine.c:63-73 | with no blocker the whole ray is reachable |
| ChessEngine.CallRay | lichess_bot_refactored/src/ChessEngine.c:61-63 | calling the ray through the function table gives exactly its squares |
| ChessEngine.ScanBlockers | lichess_bot_refactored/src/ChessEngine.c:67-69 | for odd indices it gives the highest blocker and for even ones the lowest |
| ChessEngine.BlockedRay | lichess_bot_refactored/src/ChessEngine.c:61-72 | when the scan direction matches the ray's sign, the cut ray is exactly the squares the slider reaches |
| ChessEngine.GenerateSlidingMoves | lichess_bot_refactored/src/ChessEngine.c:53-76 | with four rays alternating positive and negative, the result is exactly the squares reached along some ray that are not friendly |
| ChessEngine.GenerateBishopMoves | lichess_bot_refactored/src/ChessEngine.c:87-93 | exactly the diagonal squares up to and including the first piece, less friendly pieces |
| ChessEngine.GenerateRookMoves | lichess_bot_refactored/src/ChessEngine.c:104-111 | exactly the file and rank squares up to and including the first piece, less friendly pieces |
| ChessEngine.GenerateQueenMoves | lichess_bot_refactored/src/ChessEngine.c:122-125 | the union of rook and bishop moves |
| MoveGeneration.LowestSquare | lichess_bot_refactored/src/ChessEngine.c:415-431 | each `bitScanForward(pieceBoard)` call inside the loops gives the lowest set square |
| MoveGeneration.SetSquaresStep | lichess_bot_refactored/src/ChessEngine.c:456-458 | `pieceBoard &= pieceBoard - 1` drops exactly the square just visited, so what is left to visit is the rest of the ascending list |
| MoveGeneration.MeetsAt | lichess_bot_refactored/src/ChessEngine.c:355 | `pieceMoves & kingBoard` is non-zero exactly when the two boards share a square |
| MoveGeneration.EvaluateMaterial | lichess_bot_refactored/src/ChessEngine.c:38-47 | the loop returns the sum over the six kinds of value × (own count − opposing count), seen from the side to move |
| MoveGeneration.SwapColours | lichess_bot_refactored/src/ChessEngine.c:41-42 | reference for colour symmetry: each white board swaps with the black board of the same kind |
| MoveGeneration.BalanceSwapped | lichess_bot_refactored/src/ChessEngine.c:41-44 | swapping colours negates the weighted balance |
| MoveGeneration.BalanceBounds | lichess_bot_refactored/src/ChessEngine.c:40-44 | each kind's term lies within ±1280000, because there are at most 64 pieces and the king is worth 20000 |
| MoveGeneration.MaterialBounds | lichess_bot_refactored/src/ChessEngine.c:38-47 | the material score lies within ±7680000, far inside a 32-bit `int`, so `score += values[i] * count` never overflows |
| MoveGeneration.MaterialColourSymmetric | lichess_bot_refactored/src/ChessEngine.c:45 | the score with colours swapped and the other side to move is unchanged; the other side to move alone negates it |
| MoveGeneration.PieceOf | lichess_bot_refactored/src/ChessEngine.c:408-435 | `pieceType + colour * colorOffset` names the board of that kind and colour; it is never a union board, and its colour board is the colour's |
| MoveGeneration.GeneratePieceMoves | lichess_bot_refactored/src/ChessEngine.c:417-424 | dispatching through the generator table gives exactly the kind's pseudo-legal target squares (castling and en passant are passed but ignored) |
| MoveGeneration.HitsIff | lichess_bot_refactored/src/ChessEngine.c:355 | a generated move board meets the king board exactly when the piece can move onto the king |
| MoveGeneration.IsInCheck | lichess_bot_refactored/src/ChessEngine.c:327-362 | true exactly when some opposing piece can move onto the king of the side that moved |
| MoveGeneration.KindGivesCheck | lichess_bot_refactored/src/ChessEngine.c:342-359 | the inner loop over one kind's pieces is true exactly when one of them reaches the king board |
| MoveGeneration.CheckMoveLegal | lichess_bot_refactored/src/ChessEngine.c:372-387 | true exactly when the move, made on a copy, leaves the mover's king unattacked |
| MoveGeneration.SquaresFromExact | lichess_bot_refactored/src/ChessEngine.c:413-459 | the reference list of squares satisfying a condition holds exactly those squares, ascending |
| MoveGeneration.AscendingUnique | lichess_bot_refactored/src/ChessEngine.c:413-459 | two ascending square lists with the same members are equal, so visiting order is determined |
| MoveGeneration.BoardSquares | lichess_bot_refactored/src/ChessEngine.c:413-459 | visiting a board's set squares lowest first gives the ascending list of the squares it describes |
| MoveGeneration.TargetSquaresExact | lichess_bot_refactored/src/ChessEngine.c:429-457 | the destinations visited for one piece are exactly its pseudo-legal targets |
| MoveGeneration.GeneratedMoveAllowed | lichess_bot_refactored/src/ChessEngine.c:381-436 | in a well-formed position every generated move satisfies make_move's ASSERTs |
| MoveGeneration.TargetNotFriendly | lichess_bot_refactored/src/ChessEngine.c:147-169 | no generated target is a square of the mover's own colour |
| MoveGeneration.KindOf | lichess_bot_refactored/src/ChessEngine.c:435 | the kind of a piece board, which PieceOf maps back |
| MoveGeneration.MovesToMembers | lichess_bot_refactored/src/ChessEngine.c:429-457 | the moves kept for one piece are exactly the kept moves to its listed targets |
| MoveGeneration.MovesFromMembers | lichess_bot_refactored/src/ChessEngine.c:413-459 | the moves kept for one kind are exactly the kept moves of its pieces to their targets |
| MoveGeneration.MovesOfKindsMembers | lichess_bot_refactored/src/ChessEngine.c:406-460 | the moves kept over kinds `kind`..king are exactly the kept candidate moves of those kinds |
| MoveGeneration.KindStepMembers | lichess_bot_refactored/src/ChessEngine.c:406-460 | one kind's moves, followed by those of the later kinds |
| MoveGeneration.LegalMovesExact | lichess_bot_refactored/src/ChessEngine.c:401-463 | a move is in the legal-move list exactly when it is a candidate of the side to move and legal |
| MoveGeneration.MovesToStep | lichess_bot_refactored/src/ChessEngine.c:429-457 | one iteration of the destination loop keeps the accumulated list a prefix of the total |
| MoveGeneration.MovesFromStep | lichess_bot_refactored/src/ChessEngine.c:413-459 | one iteration of the origin loop keeps the accumulated list a prefix of the total |
| MoveGeneration.MovesOfKindsStep | lichess_bot_refactored/src/ChessEngine.c:406-460 | one iteration of the kind loop keeps the accumulated list a prefix of the total |
| MoveGeneration.PieceLegalMoves | lichess_bot_refactored/src/ChessEngine.c:415-457 | for one piece, generation plus the legality filter gives its legal moves in ascending destination order |
| MoveGeneration.KeepLegal | lichess_bot_refactored/src/ChessEngine.c:429-457 | the destination loop appends exactly the legal moves, in ascending order |
| MoveGeneration.KindLegalMoves | lichess_bot_refactored/src/ChessEngine.c:408-459 | for one kind, the legal moves of its pieces by ascending origin |
| MoveGeneration.GetMoves | lichess_bot_refactored/src/ChessEngine.c:401-463 | getMoves returns exactly LegalMoves: by kind from pawn to king, then by origin, then by destination |
| Search.LegalMovesAllowed | lichess_bot_refactored/src/ChessEngine.c:478-485 | every move getMoves returns can be made with make_move, so the search can play it on the copy |
| Search.BestOfIsMaximum | lichess_bot_refactored/src/ChessEngine.c:479-492 | the running `if (currScore > bestScore)` maximum is at least the start value and every score, and is the start value or some move's score |
| Search.NegaMaxScoreIs | lichess_bot_refactored/src/ChessEngine.c:472-497 | above depth 0, the negamax score is the maximum of the reply scores over the legal moves, starting from INT_MIN |
| Search.NegaMaxIsMaximum | lichess_bot_refactored/src/ChessEngine.c:478-496 | with no legal move the score is INT_MIN; otherwise it is the largest reply score, reached by some legal move |
| Search.CopyBoards | lichess_bot_refactored/src/ChessEngine.c:484 | the memcpy leaves the scratch array equal to the position |
| Search.PlayOnCopy | lichess_bot_refactored/src/ChessEngine.c:484-485 | copying and then making the move leaves ApplyMove of the position in the scratch array, still well-formed |
| Search.NegaMax | lichess_bot_refactored/src/ChessEngine.c:472-497 | negaMax returns the negamax score: material at depth 0, else the best negated child score, with child scores in unbounded integers |
| Search.BestReply | lichess_bot_refactored/src/ChessEngine.c:479-492 | the loop over the move list returns the maximum reply score, starting from INT_MIN |
| Search.ReplyAfter | lichess_bot_refactored/src/ChessEngine.c:486 | a move's reply score is minus the opponent's negamax score after the move, one ply shallower |
| Search.FirstBestIsFirstMaximum | lichess_bot_refactored/src/ChessEngine.c:524-541 | the strict `>` keeps the first move with the highest score, or the caller's move when none beats the start value |
| Search.AIMove | lichess_bot_refactored/src/ChessEngine.c:506-546 | None exactly when there is no legal move (the source exits there); otherwise the first legal move with the best depth-4 score |
| Search.AIMoveIsFirstBest | lichess_bot_refactored/src/ChessEngine.c:522-541 | the chosen move scores at least as well as every legal move, and strictly better than every earlier one |
| Search.Int32 | lichess_bot_refactored/src/ChessEngine.c:486-532 | a 32-bit `int` result is in INT_MIN..INT_MAX and congruent to the exact value modulo 2^32 |
| Search.NoReplyScoresLowestAsWritten | lichess_bot_refactored/src/ChessEngine.c:479-532 | as written, a move that leaves the opponent without a legal move scores INT_MIN more than one ply deep, and so never beats the start value |
| Search.ReplyAsWritten | lichess_bot_refactored/src/ChessEngine.c:486 | the reply score `-1 * negaMax(...)` in 32-bit `int` lies in INT_MIN..INT_MAX; it is the exact negation for every score above INT_MIN, and INT_MIN stays INT_MIN |
| Search.NoReplyScoresHighest | lichess_bot_refactored/src/ChessEngine.c:479-532 | with exact negation such a move scores −INT_MIN, at least as high as every other move |
| Search.ReplyAtMost | lichess_bot_refactored/src/ChessEngine.c:486 | every reply score is at most −INT_MIN |
| Search.NegaMaxLowerBound | lichess_bot_refactored/src/ChessEngine.c:473-496 | negamax never scores below INT_MIN |
| FenTools.SwapRanksAt | lichess_bot_refactored/src/dev_tools.c:23 | the first step of `_flipVertical` swaps neighbouring ranks: square j takes the bit of `j ^ 8` |
| FenTools.SwapPairsAt | lichess_bot_refactored/src/dev_tools.c:24 | the second step swaps pairs of ranks: `j ^ 16` |
| FenTools.SwapHalvesAt | lichess_bot_refactored/src/dev_tools.c:25 | the third step swaps the two halves of the board: `j ^ 32` |
| FenTools.FlipVerticalAt | lichess_bot_refactored/src/dev_tools.c:20-27 | square j of the flipped board holds the bit of square `j ^ 56` (the FLIP macro) |
| FenTools.FlipVertical | lichess_bot_refactored/src/dev_tools.c:20-27 | every square j of the result holds the bit of square `j ^ 56`: the board mirrored rank for rank |
| FenTools.MirrorSquare | lichess_bot_C/src/board_manipulations.h:11 | `sq ^ 56` keeps the file and maps rank r to rank 7 − r |
| FenTools.FlipVerticalInvolution | lichess_bot_refactored/src/dev_tools.c:20-27 | flipping twice gives the original board |
| FenTools.SquareName | lichess_bot_refactored/src/dev_tools.c:258-261 | the name of a square is a file letter a–h followed by a rank digit 1–8 |
| FenTools.ParseSquare | lichess_bot_refactored/src/dev_tools.c:258-261 | inverse reference: a name parses exactly when it is a file letter and a rank digit |
| FenTools.SquareNameRoundTrip | lichess_bot_refactored/src/dev_tools.c:258-261 | parsing the name of a square gives back the square |
| FenTools.ParseSquareRoundTrip | lichess_bot_refactored/src/dev_tools.c:258-261 | naming a parsed square gives back the name |
| FenTools.SquareNameFileRank | lichess_bot_refactored/src/dev_tools.c:259-260 | the letter's offset from 'a' is `square % 8`, the file, and the digit's offset from '1' is `square / 8`, the rank |
| FenTools.EnumSquareToString | lichess_bot_refactored/src/dev_tools.c:258-261 | the two characters written into `res` are the square's name, and the rest of `res` is untouched |
| FenTools.Tokens | lichess_bot_refactored/src/dev_tools.c:93-99 | `strtok`: the non-empty runs between separators, none of which holds a separator |
| FenTools.Join | lichess_bot_refactored/src/dev_tools.c:188-233 | reference inverse of Tokens: fields joined by one separator |
| FenTools.TokensOfField | lichess_bot_refactored/src/dev_tools.c:93-99 | a field followed by a separator (or the end) is the first token |
| FenTools.TokensJoin | lichess_bot_refactored/src/dev_tools.c:188-233 | tokenising joined non-empty, separator-free fields gives back the fields |
| FenTools.LetterPiece | lichess_bot_refactored/src/dev_tools.c:116-167 | a letter names a piece board exactly when it is one of PNBRQKpnbrqk, and that board's letter is the letter; any other character is rejected |
| FenTools.Expand | lichess_bot_refactored/src/dev_tools.c:107-174 | a rank field read as squares: digits 1–8 stand for that many empty squares and letters for pieces; only piece boards occur |
| FenTools.Empties | lichess_bot_refactored/src/dev_tools.c:109-111 | a digit n stands for n empty squares |
| FenTools.PlaceBoard | lichess_bot_refactored/src/dev_tools.c:170-172 | placing a piece sets its square on its piece board and its colour board and changes no other board |
| FenTools.PlaceAt | lichess_bot_refactored/src/dev_tools.c:170-172 | square by square: after placing, a board holds what it held plus the placed square if the piece belongs on it |
| FenTools.PlaceAllAt | lichess_bot_refactored/src/dev_tools.c:107-174 | placing a row of squares from index `idx` adds exactly its pieces on `idx..idx+len` |
| FenTools.PlaceAllSkip | lichess_bot_refactored/src/dev_tools.c:109-111 | empty squares only advance the index |
| FenTools.ScanRankReads | lichess_bot_refactored/src/dev_tools.c:107-174 | the inner loop (ScanRank) accepts exactly the fields that expand and fit on the board, and then places their pieces from the start index |
| FenTools.EmptyBoardAt | lichess_bot_refactored/src/dev_tools.c:89 | the calloc'd boards are empty |
| FenTools.BottomUp | lichess_bot_refactored/src/dev_tools.c:93-100 | the eight rank fields are stored rank 1 first: `correct_fen[i]` is token 7 − i |
| FenTools.ParseRows | lichess_bot_refactored/src/dev_tools.c:85-180 | reference reading of the board field: eight ranks of eight squares, only pieces as occupants |
| FenTools.ScanRanksExact | lichess_bot_refactored/src/dev_tools.c:103-176 | the outer loop (ScanRanks) succeeds exactly when every rank field reads as eight squares, and then records each rank's occupants on ranks 8i..8i+7 |
| FenTools.ScanRanksStep | lichess_bot_refactored/src/dev_tools.c:103-176 | one good rank is placed and the loop continues with the next |
| FenTools.ScanRanksReject | lichess_bot_refactored/src/dev_tools.c:175 | a rank field that does not read as eight squares fails `ASSERT(bb_index == 8*(i+1))` |
| FenTools.RankLayer | lichess_bot_refactored/src/dev_tools.c:103-176 | placing rank i adds exactly its squares' occupants |
| FenTools.ReadBoardDescribes | lichess_bot_refactored/src/dev_tools.c:85-180 | fen2bit succeeds exactly when the reference reading succeeds, and its boards record exactly the occupants read |
| FenTools.ReadBoard | lichess_bot_refactored/src/dev_tools.c:85-180 | a board field is accepted only when it has at least eight rank fields, each reading as exactly eight squares |
| FenTools.ReadBoardExact | lichess_bot_refactored/src/dev_tools.c:85-180 | fen2bit returns R exactly when the field reads and R describes it |
| FenTools.DescribesUnique | lichess_bot_refactored/src/dev_tools.c:85-180 | at most one position describes a reading |
| FenTools.DescribesWellFormed | lichess_bot_refactored/src/dev_tools.c:170-172 | a position describing a reading is well-formed: one piece per square, and the colour boards agree with the piece boards |
| FenTools.ReadBoardWellFormed | lichess_bot_refactored/src/dev_tools.c:85-180 | every board fen2bit accepts is well-formed |
| FenTools.Fen2Bit | lichess_bot_refactored/src/dev_tools.c:85-180 | the method's loops return exactly ReadBoard: None where an ASSERT fails for an exact index or the `default` case is reached |
| FenTools.ScanRankInto | lichess_bot_refactored/src/dev_tools.c:104-175 | the inner loop over one rank field leaves the boards and the index ScanRank computes, or reports failure exactly when ScanRank does |
| FenTools.Char8 | lichess_bot_refactored/src/dev_tools.c:104-173 | a `char` holds −128..127 and is congruent to the exact value modulo 256 |
| FenTools.Char8Shift | lichess_bot_refactored/src/dev_tools.c:110 | wrapping, then adding, then wrapping again is the same as wrapping once |
| FenTools.EightsAsWritten | lichess_bot_refactored/src/dev_tools.c:109-111 | as written, n eights move the `char` index by 8n modulo 256 |
| FenTools.ScanRankAsWritten | lichess_bot_refactored/src/dev_tools.c:104-175 | as written, the `char bb_index` the inner loop ends with lies in -128..127 |
| FenTools.EightsScan | lichess_bot_refactored/src/dev_tools.c:109-111 | with an exact index, n eights move it by 8n |
| FenTools.WrapFieldAcceptedAsWritten | lichess_bot_refactored/src/dev_tools.c:104-175 | as written, the field "P", 31 × "8", "7p7" passes every check and leaves a white pawn and a black pawn both on a1 |
| FenTools.WrapFieldRejected | lichess_bot_refactored/src/dev_tools.c:104-175 | with an exact index the same field is rejected, and it is not a valid rank field |
| FenTools.CastlingSquare | lichess_bot_refactored/src/dev_tools.c:203-218 | K, Q, k and q each grant one square (g1, c1, g8, c8); every other character grants none |
| FenTools.CastlingSumStep | lichess_bot_refactored/src/dev_tools.c:201-219 | one more character adds its square's bit with 64-bit `+=` |
| FenTools.CastlingSum | lichess_bot_refactored/src/dev_tools.c:201-219 | a field without K, Q, k or q sums to 0, and a single such letter gives exactly the bit of its king's target square (g1, c1, g8 or c8) |
| FenTools.CastlingSquareInjective | lichess_bot_refactored/src/dev_tools.c:206-217 | different castling letters grant different squares |
| FenTools.CastlingExact | lichess_bot_refactored/src/dev_tools.c:199-219 | when no right repeats, the castling board holds exactly the squares the field grants |
| FenTools.CastlingExtend | lichess_bot_refactored/src/dev_tools.c:201-219 | appending a new right keeps the board equal to the granted squares |
| FenTools.GrantsSnoc | lichess_bot_refactored/src/dev_tools.c:201-219 | a field with one more character grants what it granted plus that character's square |
| FenTools.ExtendBits | lichess_bot_refactored/src/dev_tools.c:207-216 | adding the bit of a square not yet granted sets exactly that square |
| FenTools.LastRightIsNew | lichess_bot_refactored/src/dev_tools.c:201-219 | without repeats, the last right was not granted before |
| FenTools.AddNewRight | lichess_bot_refactored/src/dev_tools.c:207-216 | adding a clear square's bit sets that square and nothing else |
| FenTools.CastlingCarries | lichess_bot_refactored/src/dev_tools.c:206-208 | a repeated right carries: "KK" sums to the bit of h1 |
| FenTools.CastlingRights | lichess_bot_refactored/src/dev_tools.c:199-219 | the loop fails exactly for a field longer than four characters (`ASSERT(c < 4)`), and otherwise returns the sum of the rights' bits |
| FenTools.ExtractFenTokens | lichess_bot_refactored/src/dev_tools.c:183-239 | the method returns exactly ReadFen: the board, the side to move, the castling sum and no en passant, or None where a field is missing or an ASSERT fails |
| FenTools.ReadFenFields | lichess_bot_refactored/src/dev_tools.c:183-239 | six well-formed fields read back: the board describes the rows and is well-formed, white moves exactly when the second field is "w", castling is the field's sum, and en passant is empty |
| FenTools.ReadFen | lichess_bot_refactored/src/dev_tools.c:183-239 | fewer than six fields give None; an accepted record has a well-formed board and no en passant square |
| EarlyDrafts.DecimalMasksAgree | lichess_bot_refactored/dataStructs.c:9-12 | the draft's decimal file masks equal the hexadecimal ones and each holds exactly the squares off its files |
| EarlyDrafts.DraftTableAgrees | lichess_bot_refactored/dataStructs.c:14-23 | the draft's bit-scan table is the same table and also inverts the de Bruijn hash |
| EarlyDrafts.SideOf | lichess_bot_refactored/dataStructs.c:5 | the `side` field is whitePawns (0) for a white piece and blackPawns (7) for a black one |
| EarlyDrafts.ToMoveInfo | lichess_bot_refactored/dataStructs.c:3-7 | a move packs into a valid `move_info` record: both squares 0..63, side 0 or 7, piece 0..13 |
| EarlyDrafts.FromMoveInfo | lichess_bot_refactored/dataStructs.c:3-7 | unpacking a valid record keeps its piece |
| EarlyDrafts.MoveInfoRoundTrip | lichess_bot_refactored/dataStructs.c:3-7 | unpacking a packed move gives the move back |
| EarlyDrafts.MoveInfoRoundTripBack | lichess_bot_refactored/dataStructs.c:3-7 | packing an unpacked record whose side matches its piece gives the record back |
| EarlyDrafts.PopCountRecurrence | lichess_bot_refactored/board_manipulations.c:16-23 | the draft's popCount loop follows the recurrence count(0) = 0 and count(bb) = 1 + count(bb & (bb−1)) |
| EarlyDrafts.GetKnightMoves | lichess_bot_refactored/ChessEngine.c:46-54 | no knights give no squares, and for one knight getKnightMoves is the same pattern as the later generator before its friendly filter (GetKnightMovesAt gives any number of knights) |
| EarlyDrafts.GetKnightMovesDistributes | lichess_bot_refactored/ChessEngine.c:46-54 | the pattern of a union of knights is the union of their patterns |
| EarlyDrafts.GetKnightMovesOrAll | lichess_bot_refactored/ChessEngine.c:46-54 | square by square, the pattern of a union is the union of the patterns |
| EarlyDrafts.GetKnightMovesHalves | lichess_bot_refactored/ChessEngine.c:51-53 | the result is the `h1` part shifted two ranks and the `h2` part shifted one rank |
| EarlyDrafts.TakeSquare | lichess_bot_refactored/ChessEngine.c:88-105 | a non-empty board splits into one of its squares and a strictly smaller rest |
| EarlyDrafts.GetKnightMovesAt | lichess_bot_refactored/ChessEngine.c:46-54 | for a board of any number of knights, the pattern holds exactly the squares some knight can jump to |
| EarlyDrafts.SinglePatternAll | lichess_bot_refactored/ChessEngine.c:46-54 | the pattern of one knight is exactly its jumps |
| EarlyDrafts.FriendlySquaresFiltered | lichess_bot_refactored/src/ChessEngine.c:137-148 | the later generator is the draft pattern with the friendly squares removed |
| EarlyDrafts.IsLegalKnightMove | lichess_bot_refactored/ChessEngine.c:66-72 | the draft legality test accepts every move |
| EarlyDrafts.KnightsOf | lichess_bot_refactored/ChessEngine.c:83 | `whiteKnights + !whiteToMove * 7` is the knight board of the side to move |
| EarlyDrafts.KnightWalkStep | lichess_bot_refactored/ChessEngine.c:88-105 | one iteration of the outer loop appends one knight's jumps and keeps the report a prefix of the total |
| EarlyDrafts.GenerateMovesKnight | lichess_bot_refactored/ChessEngine.c:81-107 | returns NULL (None), and the reported pairs are exactly KnightReport: every knight of the side to move with each of its jumps, friendly squares included |
| EarlyDrafts.JumpsFromStep | lichess_bot_refactored/ChessEngine.c:95-103 | one iteration of the inner loop reports one more jump |
| EarlyDrafts.ReportKnightJumps | lichess_bot_refactored/ChessEngine.c:95-103 | the inner loop reports the knight's square with each target, lowest first |
| EarlyDrafts.DraftAIMove | lichess_bot_refactored/ChessEngine.c:119-122 | the draft AIMove returns no move and reports the knight walk |
| EarlyDrafts.JumpsFromMembers | lichess_bot_refactored/ChessEngine.c:95-103 | the pairs reported for one knight are exactly its square paired with each target |
| EarlyDrafts.KnightWalkMembers | lichess_bot_refactored/ChessEngine.c:88-105 | the pairs reported over a list of knights are exactly each knight paired with its pattern's squares |
| EarlyDrafts.KnightReport | lichess_bot_refactored/ChessEngine.c:81-107 | (from, to) is reported exactly when a knight of the side to move stands on `from` and `to` is a knight's jump away |
| EarlyDrafts.JumpsFromInOrder | lichess_bot_refactored/ChessEngine.c:95-103 | one knight's pairs come in ascending target order |
| EarlyDrafts.KnightWalkInOrder | lichess_bot_refactored/ChessEngine.c:88-105 | the walk reports pairs by ascending knight square, then ascending target |
| EarlyDrafts.KnightReportOnce | lichess_bot_refactored/ChessEngine.c:81-107 | the report is in walk order and no pair is printed twice |
| PyPieces.NewPiece | ChessEngine.py:327-415 | a constructed piece has the requested kind and colour, and `hasMoved` is False |
| PyPieces.Points | ChessEngine.py:338-415 | a piece's points are positive exactly for white, and bounded by the king's ±900 |
| PyPieces.LineReach | ChessEngine.py:39-47 | from a line displacement, `Steps(d)` unit steps in the sign direction reach exactly `d` |
| PyPieces.KingOffsetsAre | ChessEngine.py:330-334 | the king's table holds exactly the eight unit line steps |
| PyPieces.KnightOffsetsAre | ChessEngine.py:375-379 | the knight's table holds exactly the (±1, ±2) and (±2, ±1) jumps |
| PyPieces.RayHas | ChessEngine.py:349-353 | the distances 1..7 in a unit direction are exactly the line displacements of at most 7 steps with that direction |
| PyPieces.RayReaches | ChessEngine.py:349-353 | every such displacement occurs in the direction's ray |
| PyPieces.RaysHas | ChessEngine.py:349-353 | a union of rays holds exactly what one of them holds |
| PyPieces.DirectionOfLine | ChessEngine.py:349-353 | the sign pair of a line displacement is a king step |
| PyPieces.QueenOffsetsAre | ChessEngine.py:345-357 | the queen's table holds exactly the line displacements of 1..7 steps |
| PyPieces.BishopOffsetsAre | ChessEngine.py:359-366 | the bishop's table holds exactly the diagonal displacements of 1..7 steps |
| PyPieces.RookOffsetsAre | ChessEngine.py:385-394 | the rook's table holds exactly the rank and file displacements of 1..7 steps |
| PyPieces.MovesAreLines | ChessEngine.py:39-47 | every table displacement of a non-knight is a line of at most 7 steps, so the path walk in isLegalMove reaches its target |
| PyPieces.Put | ChessEngine.py:90-91 | `board[r][c] = x` changes that square alone |
| PyPieces.SameRows | ChessEngine.py:55 | two 8×8 boards that agree on every square are equal |
| PyPieces.MovedSquares | ChessEngine.py:89-91 | making a move empties the origin, puts the piece on the destination and leaves every other square |
| PyPieces.UndoRestores | ChessEngine.py:97-99 | the engine's undo (`board[row][col] = board[nextRow][nextCol]; board[nextRow][nextCol] = temp`) restores the board exactly |
| PyPieces.Grid.constructor | ChessEngine.py:17 | the board object holds the given rows |
| PyRules.PatternLine | ChessEngine.py:20-39 | whatever passes the first test of isLegalMove, for any piece but a knight, is a line of at most seven steps, so the walk ends |
| PyRules.ClearFromExact | ChessEngine.py:43-47 | the walk from step k to step n succeeds exactly when every square on the way is empty |
| PyRules.UnitIsSign | ChessEngine.py:41 | `step // max(abs(step), 1)` with Python's floor division is the sign of the step |
| PyRules.IsLegalMove | ChessEngine.py:17-51 | isLegalMove returns exactly LegalMove: the table or special pattern, an empty path for any piece but a knight, and no capture of one's own colour |
| PyRules.CheckPattern | ChessEngine.py:18-38 | the first test: a displacement from the table passes for non-pawns; a pawn passes by single step, unmoved double step onto an empty square, or diagonal capture; an unmoved king passes a two-square step toward an unmoved rook in its corner |
| PyRules.WalkPath | ChessEngine.py:39-47 | the walk returns exactly whether every square strictly between origin and destination is empty |
| PyRules.KingIndex | ChessEngine.py:57-62 | `row.index(King(colour))`: the first king of that colour in the row, or None when there is none |
| PyRules.KingFrom | ChessEngine.py:55-63 | the first king of the colour in row-major order from the given row, or None when no later row holds one |
| PyRules.KingSquare | ChessEngine.py:54-63 | findKing finds a king of the colour exactly when the board holds one, and it is the first in row-major order |
| PyRules.FindKing | ChessEngine.py:54-63 | the loop returns KingSquare: the Python None return is `None` |
| PyRules.IsInCheck | ChessEngine.py:66-81 | isInCheck returns exactly InCheck: an enemy knight a knight's jump away, or an enemy piece on a queen line that may legally take the king |
| PyRules.ScanKnights | ChessEngine.py:68-72 | the knight loop returns whether an enemy knight stands at one of the offsets |
| PyRules.ScanSliders | ChessEngine.py:75-80 | the queen-offset loop returns whether an enemy piece stands at one of the offsets and may legally move onto the king |
| PyRules.TryMove | ChessEngine.py:85-104 | tryMove answers False for an illegal move, else whether the king is safe after the move; the board is restored; None stands for the TypeError when findKing finds no king |
| PyRules.KnightChecksExact | ChessEngine.py:68-72 | the knight scan is true exactly when some offset holds an enemy knight |
| PyRules.SliderChecksExact | ChessEngine.py:75-80 | the slider scan is true exactly when some offset holds an enemy piece that may take the king |
| PyRules.KnightHitAttacks | ChessEngine.py:68-72 | an enemy knight a knight's jump away can legally take the king |
| PyRules.KnightAttacker | ChessEngine.py:66-81 | any knight that can take the king stands at a knight offset, where the scan sees it |
| PyRules.SliderAttacker | ChessEngine.py:66-81 | any other piece that can take the king stands at a queen offset, where the scan sees it |
| PyRules.InCheckExact | ChessEngine.py:66-81 | isInCheck's two scans together are exactly "some enemy piece anywhere on the board may legally take the king" |
| PyRules.InCheckHasAttacker | ChessEngine.py:66-81 | a check always has an attacker on the board |
| PyRules.AttackerChecks | ChessEngine.py:66-81 | any attacker anywhere makes isInCheck true |
| PyRules.LegalPathEmpty | ChessEngine.py:39-47 | every square strictly between origin and destination of a legal non-knight move is empty |
| PyRules.PawnLegal | ChessEngine.py:20-50 | a pawn move is legal exactly when it is a step forward onto an empty square, an unmoved double step over two empty squares, or a diagonal capture of an enemy piece |
| PyRules.KingTwoSteps | ChessEngine.py:32-50 | a king's two-square step is legal exactly when the king is unmoved, an unmoved rook of any colour stands in that corner, the square passed over is empty, and the destination holds no own piece |
| PyRules.TryMoveExact | ChessEngine.py:85-104 | tryMove answers True exactly for a legal move after which the mover's king is on the board and no enemy piece may take it |
| PyRules.TryMoveRaises | ChessEngine.py:94 | tryMove raises exactly when the move is legal and the mover has no king on the board |
| PyRules.KingsSurviveMove | ChessEngine.py:89-94 | a legal move keeps the mover's king on the board: the mover never captures its own king |
| PyMoves.LegalIsCandidate | ChessEngine.py:201-216 | every displacement isLegalMove accepts is among those generateMoves tries, so generation misses no legal move |
| PyMoves.AcceptedIsLegal | ChessEngine.py:85-104 | a move tryMove accepts is legal |
| PyMoves.TriedExact | ChessEngine.py:201-216 | one piece's offset loop keeps exactly the earlier moves plus the on-board destinations the probe accepts |
| PyMoves.PieceExact | ChessEngine.py:200-216 | the moves found for one piece are exactly the earlier ones plus its on-board moves that tryMove accepts |
| PyMoves.MovesFromExact | ChessEngine.py:198-216 | the row-major scan from (r, c) adds exactly the accepted moves of the colour's pieces on (r, c) or later |
| PyMoves.GeneratedExact | ChessEngine.py:196-217 | a move is generated exactly when a piece of the colour makes it on the board and tryMove accepts it |
| PyMoves.GeneratedInBoard | ChessEngine.py:203-209 | every generated move stays on the board |
| PyMoves.TriedDefined | ChessEngine.py:201-216 | when no probe raises, the offset loop finishes |
| PyMoves.ProbeDefined | ChessEngine.py:94 | while the mover has a king, tryMove never raises |
| PyMoves.PieceDefined | ChessEngine.py:200-216 | while the mover has a king, one piece's moves are generated without error |
| PyMoves.MovesFromDefined | ChessEngine.py:198-216 | while the colour has a king, the scan finishes without error |
| PyMoves.GeneratedDefined | ChessEngine.py:196-217 | generateMoves raises only when the colour has no king |
| PyMoves.TryOffsets | ChessEngine.py:201-216 | the method's loop over offsets returns Tried and leaves the board as it found it |
| PyMoves.TriedAppend | ChessEngine.py:206-211 | trying two offset lists one after the other is trying their concatenation (`attackMoves + doubleMove`) |
| PyMoves.PieceMoves | ChessEngine.py:200-216 | one piece's table, then its pawn or castling extras, and the board is unchanged |
| PyMoves.GenerateMoves | ChessEngine.py:196-217 | generateMoves returns GeneratedMoves of the board and leaves the board as it was |
| PyMoves.SpecialRules | ChessEngine.py:130-139 | specialRules leaves the board AfterSpecialRules; the promotion choice is a parameter |
| PyMoves.CastlingMovesRook | ChessEngine.py:131-139 | an unmoved king on column 2 or 6 brings the corner rook to column 3 or 5, empties the corner, is marked moved, and nothing else changes; the rook is not marked |
| PyMoves.PromotionReplacesPawn | ChessEngine.py:107-139 | a pawn on row 0 or 7 becomes the chosen piece of its colour; a new rook is marked moved; nothing else changes |
| PyMoves.OtherwiseOnlyMarks | ChessEngine.py:137-139 | otherwise a pawn, king or rook on the square is marked moved, any other piece is left alone, and nothing else changes |
| PyMoves.DropKind | ChessEngine.py:308-318 | `pieces[previousCol]`: a piece kind other than king for −5 ≤ previousCol < 5 (Python negative indices), an IndexError otherwise |
| PyMoves.PutBack | ChessEngine.py:318-323 | placing a piece on an empty square and then clearing it restores the board |
| PyMoves.TryCrazyhouseMove | ChessEngine.py:307-325 | the method returns DropOutcome and leaves the board as it found it |
| PyMoves.DropExact | ChessEngine.py:307-325 | a drop is accepted exactly when the square is empty, the kind exists, a pawn is not dropped on an end row, and the dropping side's king is safe afterwards |
| PyMoves.DropRefused | ChessEngine.py:310-313 | an occupied square, or a pawn on an end row, is refused |
| PyMoves.DropRaises | ChessEngine.py:308-321 | the drop raises exactly when the square is empty and either the tray index is out of range or the dropping side has no king |
| PySearch.PositionEvaluation | ChessEngine.py:219-225 | the nested loop sums every piece's points (White positive, Black negative) and returns no moves |
| PySearch.RowBound | ChessEngine.py:221-224 | a row's points lie within ±900 per square |
| PySearch.BoardBound | ChessEngine.py:221-224 | a board of 8-square rows scores within ±7200 per row |
| PySearch.EvaluationBound | ChessEngine.py:219-225 | an 8×8 board evaluates within ±57600, inside the ±100000 search window |
| PySearch.RowPut | ChessEngine.py:221-224 | changing one square changes the row's points by the difference of the two cells' points |
| PySearch.BoardPut | ChessEngine.py:221-224 | changing one row changes the evaluation by the difference of the two rows' points |
| PySearch.EvaluationPut | ChessEngine.py:219-225 | writing one cell changes the evaluation by the new cell's points minus the old one's |
| PySearch.EvaluationAfterMove | ChessEngine.py:237-270 | making a move changes the evaluation by exactly minus the captured piece's points |
| PySearch.SwapRowPoints | ChessEngine.py:221-224 | swapping every piece's colour negates a row's points |
| PySearch.EvaluationSwap | ChessEngine.py:219-225 | swapping every piece's colour negates the evaluation, so the evaluation is symmetric between the sides |
| PySearch.SpecialRulesEvaluation | ChessEngine.py:107-139 | after specialRules the evaluation drops by the piece a castling rook lands on, changes by the promotion's difference in points, or stays the same |
| PySearch.MarkKeepsEvaluation | ChessEngine.py:137-139 | marking a piece moved leaves the evaluation unchanged |
| PySearch.RookCrossingEvaluation | ChessEngine.py:131-134 | moving the corner rook beside the king drops the evaluation by whatever stood there |
| PySearch.Maxi | ChessEngine.py:229-256 | maxi returns Search for White and, unless it raises, leaves the board as it found it |
| PySearch.MaxiMoves | ChessEngine.py:235-256 | maxi's move loop returns Pick over White's moves and their replies from −100000 and no best moves, restoring the board |
| PySearch.Mini | ChessEngine.py:259-287 | mini returns Search for Black and, unless it raises, leaves the board as it found it |
| PySearch.MiniMoves | ChessEngine.py:266-287 | mini's move loop returns Pick over Black's moves and their replies from 100000 and no best moves, restoring the board |
| PySearch.TryReply | ChessEngine.py:237-276 | make, search one ply shallower, undo: the result is the move's ReplyScore and the board is restored |
| PySearch.MakeMove | ChessEngine.py:237-270 | the board becomes the board after the move |
| PySearch.UndoMove | ChessEngine.py:243-276 | the mover goes back to its square and the saved cell goes back to the target |
| PySearch.Answer | ChessEngine.py:241-272 | the call of the other side's search returns Search for that side |
| PySearch.RepliesAt | ChessEngine.py:241-272 | a move's reply score is the score of the other side's search on the board after the move |
| PySearch.PickBounds | ChessEngine.py:247-287 | with every reply within ±100000, the loop's score stays within ±100000 |
| PySearch.SearchBounds | ChessEngine.py:229-287 | every score maxi and mini return lies within ±100000 |
| PySearch.ReplyBound | ChessEngine.py:241-272 | every reply score lies within ±100000 |
| PySearch.CutoffNeverFires | ChessEngine.py:235-280 | since alpha and beta are reset to ±100000, no reply exceeds them, so the cutoff returns are never reached |
| PySearch.PickMeaning | ChessEngine.py:235-287 | from any point of the loop, the result's score is at least as good for the side as every reply, every best move is a listed move whose reply equals that score, and the list is non-empty whenever there are moves |
| PySearch.SearchMeaning | ChessEngine.py:229-287 | at depth ≥ 1 no generated move's reply beats the returned score, each best move is a generated move whose reply equals it, the list is empty exactly when there are no moves, and then the score is the side's worst |
| SimpleMain.EmptyBoard | lichess_bot_Python/engines/simple_main.py:11-12 | an 8×8 board with every square empty |
| SimpleMain.MakeBoard | lichess_bot_Python/engines/simple_main.py:9-29 | makeBoard returns a new board holding the starting position |
| SimpleMain.StartBoard | lichess_bot_Python/engines/simple_main.py:9-29 | pieces stand exactly on rows 0, 1, 6 and 7, Black on rows 0 and 1 and White on rows 6 and 7, pawns exactly on rows 1 and 6, none marked moved |
| SimpleMain.BackRanks | lichess_bot_Python/engines/simple_main.py:14-22 | the back-rank writes fill rows 0 and 7 as in the starting position and leave the other rows empty |
| SimpleMain.StartBoardLayout | lichess_bot_Python/engines/simple_main.py:9-29 | in the starting position pieces stand exactly on rows 0, 1, 6 and 7, Black on the first two, pawns exactly on rows 1 and 6, queens on column 3 and kings on column 4 of the back ranks, none marked moved |
| SimpleMain.StartRow | lichess_bot_Python/engines/simple_main.py:14-27 | each starting row holds 8 pieces on rows 0, 1, 6, 7 and none elsewhere, worth −1210, −80, 80 and 1210 |
| SimpleMain.StartBoardBalanced | lichess_bot_Python/engines/simple_main.py:9-29 | the starting position has 32 pieces and evaluates to 0 |
| SimpleMain.GetRow | lichess_bot_Python/engines/simple_main.py:31-32 | the row is the floor of index / 8 |
| SimpleMain.GetCol | lichess_bot_Python/engines/simple_main.py:34-35 | the column lies in 0..7 and index = 8·row + column |
| SimpleMain.IndexSquare | lichess_bot_Python/engines/simple_main.py:31-35 | indices 0..63 and board squares correspond one to one |
| SimpleMain.FenPiece | lichess_bot_Python/engines/simple_main.py:41-42 | a letter of the table gives a piece not yet marked moved; any other character is a KeyError |
| SimpleMain.FenPieceInjective | lichess_bot_Python/engines/simple_main.py:41-42 | different letters stand for different pieces |
| SimpleMain.FirstField | lichess_bot_Python/engines/simple_main.py:43-46 | the placement field holds no space and is a prefix of the string |
| SimpleMain.AfterSpace | lichess_bot_Python/engines/simple_main.py:43 | there is text after a first space exactly when the string contains a space |
| SimpleMain.SecondField | lichess_bot_Python/engines/simple_main.py:43-62 | `fen[1]` exists exactly when the string contains a space |
| SimpleMain.SplitAtSpace | lichess_bot_Python/engines/simple_main.py:43 | the string is its first field, a space and the rest, or only the first field when there is no space |
| SimpleMain.FenStep | lichess_bot_Python/engines/simple_main.py:47-59 | one character keeps the board 8×8 |
| SimpleMain.FenScan | lichess_bot_Python/engines/simple_main.py:46-59 | the loop keeps the board 8×8 |
| SimpleMain.MakeBoardFromFen | lichess_bot_Python/engines/simple_main.py:37-62 | the method returns FromFen: the board and the side field, or None where Python raises |
| SimpleMain.FromFen | lichess_bot_Python/engines/simple_main.py:37-62 | a board read from FEN is 8 by 8, its side field is the second field, and its placement field is '/', digits and piece letters describing 64 squares |
| SimpleMain.ReadFenChar | lichess_bot_Python/engines/simple_main.py:47-59 | one pass of the loop body: a "/" is skipped, a digit advances the index, a known letter places its piece (marked moved as the loop marks it) and advances by one, and an unknown letter or an index past the board raises |
| SimpleMain.FenScanIndex | lichess_bot_Python/engines/simple_main.py:47-59 | a scan that succeeds read a valid field and advanced the index by the number of squares it describes |
| SimpleMain.FenScanCovers | lichess_bot_Python/engines/simple_main.py:46-59 | a valid field whose squares fit on the board is read to the end without error |
| SimpleMain.StepAgrees | lichess_bot_Python/engines/simple_main.py:47-59 | one character read within the board keeps the board in step with the squares read so far |
| SimpleMain.FenScanAgrees | lichess_bot_Python/engines/simple_main.py:46-60 | a scan ending on square 64 puts on every square what the field says |
| SimpleMain.FromFenSucceeds | lichess_bot_Python/engines/simple_main.py:37-62 | makeBoardFromFen succeeds exactly when the placement field is '/', digits and piece letters describing 64 squares and a space follows it |
| SimpleMain.FromFenBoard | lichess_bot_Python/engines/simple_main.py:37-62 | the board has on each square what the placement field says, and the side to move is the second field |
| SimpleMain.FenMarksMoved | lichess_bot_Python/engines/simple_main.py:52-58 | with one piece per square, a piece is marked moved exactly when it is a king or a pawn off its start row |
| SimpleMain.SharedFlagsAgree | lichess_bot_Python/engines/simple_main.py:41-58 | read as written, any two pieces of one kind and colour carry the same hasMoved flag |
| SimpleMain.FromFenAsWritten | lichess_bot_Python/engines/simple_main.py:41-58 | with the shared piece objects the reading succeeds exactly when FromFen does, with the same side field and the same kind and colour on every square; only the hasMoved flags can differ |
| SimpleMain.ExpandAppend | lichess_bot_Python/engines/simple_main.py:46-49 | reading a field in two parts is reading it whole, and it is valid exactly when both parts are |
| SimpleMain.SharedPawnFlagAsWritten | lichess_bot_Python/engines/simple_main.py:41-55 | for "4k3/p7/p7/8/8/8/8/4K3 w" the a7 pawn is unmoved in the corrected reading and marked moved as written |
| SimpleMain.FileIndex | lichess_bot_Python/engines/simple_main.py:99 | a known file letter maps into 0..7 |
| SimpleMain.FileRoundTrip | lichess_bot_Python/engines/simple_main.py:82-99 | the two file dictionaries are inverse to each other |
| SimpleMain.DigitValue | lichess_bot_Python/engines/simple_main.py:103-104 | `int` of one character gives 0..9, or a ValueError |
| SimpleMain.DigitRoundTrip | lichess_bot_Python/engines/simple_main.py:85-104 | `str` and `int` are inverse on the digits 0..9 |
| SimpleMain.EngineToUciReads | lichess_bot_Python/engines/simple_main.py:80-91 | the UCI string names both squares' files and ranks `8 - row`, and ends in 'q' exactly when a pawn reaches row 0 or 7 |
| SimpleMain.EngineToUci | lichess_bot_Python/engines/simple_main.py:80-91 | the UCI string has four characters, or five ending in 'q' exactly when a pawn reaches row 0 or 7 |
| SimpleMain.UciToEngineExact | lichess_bot_Python/engines/simple_main.py:93-115 | a string is accepted exactly when both squares are on the board and a promoting pawn move carries q, r, b or n; the result names those squares and the promotion letter, and nothing for other moves |
| SimpleMain.UciToEngine | lichess_bot_Python/engines/simple_main.py:93-115 | an accepted move has both squares on the board and the files the string names; it carries a promotion letter exactly when a pawn reaches row 0 or 7, and that letter is the fifth character, one of q, r, b or n |
| SimpleMain.EngineUciRoundTrip | lichess_bot_Python/engines/simple_main.py:80-115 | engine → UCI → engine gives the move back, with 'q' exactly on a promotion |
| SimpleMain.UciEngineRoundTrip | lichess_bot_Python/engines/simple_main.py:80-115 | UCI → engine → UCI gives back the four square characters, and a fifth only as a queen promotion |
| SimpleMain.MovePiece | lichess_bot_Python/engines/simple_main.py:117-119 | the piece moves to the target square and its old square empties |
| SimpleMainCli.EngineToUci | simple-main.py:47-57 | four characters: file, rank, file, rank |
| SimpleMainCli.UciToEngine | simple-main.py:59-79 | an accepted move lies on the board |
| SimpleMainCli.UciToEngineAccepts | simple-main.py:59-79 | a string is accepted exactly when it has 4 or 5 characters starting file, rank 1..8, file, rank 1..8 |
| SimpleMainCli.UciEngineRoundTrip | simple-main.py:47-79 | writing back an accepted move gives its first four characters |
| SimpleMainCli.EngineUciRoundTrip | simple-main.py:47-79 | reading back what the engine writes gives the same move |
| SimpleMainCli.FifthCharacterIgnored | simple-main.py:59-79 | a fifth character changes nothing |
| HashDict.CRem | lichess_bot_refactored/src/lib/hdict.c:61 | C's `%` by a positive divisor: the remainder lies strictly between −b and b, takes the dividend's sign, and its size is the dividend's size modulo b |
| HashDict.Abs | lichess_bot_refactored/src/lib/hdict.c:61 | `abs` is non-negative and equals x or −x |
| HashDict.IndexOf | lichess_bot_refactored/src/lib/hdict.c:57-62 | `index_of_key` lands in 0..capacity−1, as the C contract promises, and equals `abs(h) mod capacity` |
| HashDict.IndexOfMirrors | lichess_bot_refactored/src/lib/hdict.c:61 | a hash and its negation select the same chain, a non-negative hash selects `h mod capacity`, and −1 selects chain 1 of 8 where a floor remainder would give 7 |
| HashDict.Find | lichess_bot_refactored/src/lib/hdict.c:119-129 | the chain walk returns an entry of the chain whose key is equivalent to k, and NULL exactly when no entry's key is |
| HashDict.TableLookup | lichess_bot_refactored/src/lib/hdict.c:113-130 | the lookup returns an entry of the chain the key's hash selects whose key is equivalent to k, and NULL exactly when no entry of that chain has one |
| HashDict.FindFirst | lichess_bot_refactored/src/lib/hdict.c:123-180 | the walk stops at the first entry whose key matches |
| HashDict.BagEmpty | lichess_bot_refactored/src/lib/hdict.c:86 | a table of empty chains holds no entries |
| HashDict.BagSnoc | lichess_bot_refactored/src/lib/hdict.c:142-155 | the entries of the first i+1 chains are those of the first i plus chain i |
| HashDict.BagMember | lichess_bot_refactored/src/lib/hdict.c:43-55 | an entry is in the table exactly when it is in one of its chains |
| HashDict.BagPrepend | lichess_bot_refactored/src/lib/hdict.c:151-191 | putting e at the front of a chain adds exactly e to the table |
| HashDict.BagReplace | lichess_bot_refactored/src/lib/hdict.c:179 | overwriting one node's entry with e swaps that entry for e in the table |
| HashDict.DistinctAdd | lichess_bot_refactored/src/lib/hdict.c:187-192 | adding an entry whose key matches no stored key keeps the keys pairwise non-equivalent |
| HashDict.DistinctReplace | lichess_bot_refactored/src/lib/hdict.c:177-180 | swapping an entry for one with an equivalent key keeps the keys pairwise non-equivalent |
| HashDict.PlacedAt | lichess_bot_refactored/src/lib/hdict.c:57-62 | in a table that keeps the invariants, every entry of chain i hashes to slot i |
| HashDict.PlacedUpdate | lichess_bot_refactored/src/lib/hdict.c:151-191 | a chain all of whose entries hash to slot i may replace chain i and keeps the placement |
| HashDict.FindInTable | lichess_bot_refactored/src/lib/hdict.c:113-130 | in a table that keeps the invariants, the lookup finds the one stored entry whose key is equivalent to k, and NULL exactly when none is |
| HashDict.SameLookups | lichess_bot_refactored/src/lib/hdict.c:113-130 | two tables holding the same entries with keys equivalent to k answer the lookup of k alike, whatever their capacities |
| HashDict.OnlyKeyChanged | lichess_bot_refactored/src/lib/hdict.c:177-192 | swapping x for e or adding e, with equivalent keys, changes no entry whose key is not equivalent to theirs |
| HashDict.KeepsOtherLookups | lichess_bot_refactored/src/lib/hdict.c:163-202 | such a swap or addition leaves the lookup of every key not equivalent to e's as it was |
| HashDict.ReplaceKeepsInvariants | lichess_bot_refactored/src/lib/hdict.c:177-180 | overwriting a node with an entry of an equivalent key keeps the placement and the distinct keys |
| HashDict.Hdict.GetMeaning | lichess_bot_refactored/src/lib/hdict.c:112-130 | on a valid table a lookup returns a stored entry whose key is equivalent to k, NULL exactly when there is none, and the stored entry whenever there is one |
| HashDict.Hdict.Get | lichess_bot_refactored/src/lib/hdict.c:112-130 | a lookup in the table returns an entry of the chain `index_of_key` selects whose key is equivalent to k, and NULL exactly when that chain has none |
| HashDict.Hdict.constructor | lichess_bot_refactored/src/lib/hdict.c:77-92 | `hdict_new` makes a valid, empty table of the given capacity with the client's functions |
| HashDict.Hdict.Size | lichess_bot_refactored/src/lib/hdict.c:106-110 | the size is the number of stored entries |
| HashDict.Hdict.Lookup | lichess_bot_refactored/src/lib/hdict.c:112-130 | the lookup returns Get, which is NULL or an entry whose key is equivalent to k, as the C contract promises |
| HashDict.Hdict.Resize | lichess_bot_refactored/src/lib/hdict.c:132-161 | after resizing the table is valid with the new capacity, the size and the stored entries are unchanged, and every key looks up as before |
| HashDict.Hdict.Rehash | lichess_bot_refactored/src/lib/hdict.c:139-155 | the new table has the new number of chains, holds the old table's entries, and each entry sits in the chain its hash selects |
| HashDict.Hdict.RelinkChain | lichess_bot_refactored/src/lib/hdict.c:145-154 | relinking a chain adds exactly its entries to the new table and keeps every entry in its hash's chain |
| HashDict.Hdict.Relink | lichess_bot_refactored/src/lib/hdict.c:150-152 | one node goes to the front of its chain in the new table |
| HashDict.Hdict.Insert | lichess_bot_refactored/src/lib/hdict.c:163-202 | the table stays valid and `hdict_lookup` of e's key returns e; an entry with an equivalent key is replaced and the size kept, otherwise e is added and counted; the capacity doubles exactly when the size exceeds it and the capacity is below INT_MAX/2; every other key looks up as before |
| HashDict.Hdict.Overwrite | lichess_bot_refactored/src/lib/hdict.c:172-184 | the first matching node's entry becomes e, swapping it for e in the table, and other keys look up as before |
| HashDict.Hdict.Prepend | lichess_bot_refactored/src/lib/hdict.c:187-192 | with no matching node, e starts its chain and is counted, and other keys look up as before |

## Findings

| source | as written | input that shows it | evidently intended | confidence | as-written member | corrected member |
|---|---|---|---|---|---|---|
| lichess_bot_refactored/src/ChessEngine.c:479-486 | a side with no move returns the sentinel `INT_MIN`, and `-1 * negaMax(...)` of it wraps back to `INT_MIN` (undefined behaviour in C; in practice two's-complement wrap), so the move that leaves the opponent without a reply scores lowest | a position where the side to move has a mate in one, searched at depth 4 | a move after which the opponent has no reply scores above every other move | not executed | Search.NoReplyScoresLowestAsWritten | Search.NoReplyScoresHighest |
| lichess_bot_refactored/src/dev_tools.c:104-175 | `bb_index` is a `char`, so a rank field whose digits add up past 127 wraps around and still meets `ASSERT(bb_index == 8*(i+1))` at line 175 | the first rank field "P" followed by 31 copies of "8" and then "7p7" | a rank field must describe exactly 8 squares | not executed | FenTools.WrapFieldAcceptedAsWritten | FenTools.WrapFieldRejected |
| lichess_bot_Python/engines/simple_main.py:41-58 | `fen_to_Pieces` holds one object per letter, so every square with that letter shares it and `hasMoved` set for one pawn is set for all of them | "4k3/p7/p7/8/8/8/8/4K3 w": the a6 pawn marks the shared black pawn object, so the a7 pawn on its start row reads as moved | a fresh piece per square, so only kings and pawns off their start rows are marked moved | not executed | SimpleMain.SharedPawnFlagAsWritten | SimpleMain.FenMarksMoved |

## Behaviour kept as written

- Castling in `isLegalMove` does not look at the colour of the corner rook or at the squares next to the rook (PyRules.KingTwoSteps).
- `specialRules` moves the castled rook but does not mark it moved (PyMoves.CastlingMovesRook).
- In `generateMoves` the castling candidates are not bounds-checked before they index the board (ChessEngine.py:212-216); the model checks the bounds, since an off-board candidate is rejected by the rook and path tests anyway.
- `maxi` and `mini` reset `alpha` and `beta` to ±100000 on entry, so their cutoffs never fire (PySearch.CutoffNeverFires).
- A repeated castling letter in a FEN record adds its bit twice, which carries into the next square (FenTools.CastlingCarries).
- The early draft's `isLegalKnightMove` accepts every move (EarlyDrafts.IsLegalKnightMove).

## Left out

- Output and interaction: `render` and `start` in both simple-main files, `render_single`/`render_all`, the `DEBUG` printf blocks, the "White pawn moved" print, the "money move" print and resize's printf. They only print or read the terminal.
- `boardSet1`/`boardSet2` (lichess_bot_Python/engines/simple_main.py:174-188, simple-main.py:85-91): hand-made debugging positions.
- main.py (Tk user interface), lichess_bot/engines/UCI.py (the UCI loop over python-chess), lichess_bot_C/profile_API.py and lichess_bot_refactored/testing.py (ctypes calls into the compiled library): user interface, protocol and foreign-call wrappers.
- `ChessEngine.promotePawn`'s dialog: the chosen kind is a parameter of PyMoves.SpecialRules.
- `ChessEngine.AIMove`, `isInMate` and `checkGameState` of the Python engine: they pick with `random.choice` and report the game state. For `'w'` AIMove reads `bestMoves` before assigning it and raises NameError.
- The calls at lichess_bot_Python/engines/simple_main.py:160 and lichess_bot/engines/UCI.py:82 target a ChessEngine version that is not part of this model.
- Castling and en passant in the C engine: the arguments are ignored there, and the model has no such arguments.
- The `atoi` conversions and the halfmove and fullmove fields of `extract_fen_tokens`: the model reads the first four fields only. `strtok` itself is modelled, as FenTools.Tokens.
- FenTools.Fen2Bit: the rank index is an exact integer, so a field whose digits wrap the `char bb_index` is rejected; the `char` wrap lives only in FenTools.ScanRankAsWritten (see Findings).
- malloc/free and the move lists' linked nodes: move lists are sequences, and the C engine's `AIMove` exit with no legal move is `None`.
- Python pieces are values, not shared objects, except in SimpleMain.FromFenAsWritten. Aliasing other than that of `makeBoardFromFen` is not captured.
- `int()` of non-ASCII digits: SimpleMain.DigitValue accepts only '0'..'9'.
- `hdict_free` (it never advances `node`, hdict.c:97-100, and so never ends), `hdict_stats` (hdict.c:209 calls malloc with two arguments), `hdict_print` and `chain_length`.
- HashDict.Hdict.Insert: does not model C `int` overflow of `size`; the size is unbounded.
- HashDict: the chains are sequences, so node identity is not modelled. The order of nodes is kept only as far as prepending is.
- HashDict: the client's key, hash and equivalence functions are fields of the table. That the equivalence is an equivalence relation the hash respects is a precondition of the constructor.
- `key` values as NULL pointers and the NULL checks of `is_hdict`: functions are never NULL in the model.
- Search.NegaMax: scores are unbounded, so the wrap-around of `-INT_MIN` lives only in Search.ReplyAsWritten.
