/**
 * The search of the bitboard engine (lichess_bot_refactored/src/ChessEngine.c):
 * negaMax to a fixed depth over getMoves, scored by evaluateMaterial at the
 * leaves, and AIMove, the root search that returns the move to play.
 */
module Search {
  import opened DataStructs
  import opened BoardManipulations
  import opened MoveGeneration

  /** INT_MIN of a 32-bit `int`: the score a search starts from and returns when there is no move. */
  const IntMin: int := -0x8000_0000

  /** DEPTH: the number of plies AIMove looks ahead. */
  const Depth: nat := 4

  /** Every move getMoves lists passes make_move's checks. */
  lemma LegalMovesAllowed(B: Board, white: bool)
    ensures forall m :: m in LegalMoves(B, white) ==> MoveAllowed(B, m)
  {
    forall m | m in LegalMoves(B, white) ensures MoveAllowed(B, m) {
      LegalMovesExact(B, white, m);
    }
  }

  /** The fold of negaMax's loop: `best` is raised to each score that is strictly larger, in list order. */
  function BestOf(score: Move -> int, moves: seq<Move>, best: int): int
    decreases |moves|
  {
    if moves == [] then best
    else
      var currScore := score(moves[0]);
      BestOf(score, moves[1..], if currScore > best then currScore else best)
  }

  /** BestOf is the maximum of `best` and the scores, and is one of them. */
  lemma {:induction false} BestOfIsMaximum(score: Move -> int, moves: seq<Move>, best: int)
    ensures best <= BestOf(score, moves, best)
    ensures forall m :: m in moves ==> score(m) <= BestOf(score, moves, best)
    ensures BestOf(score, moves, best) == best || exists m :: m in moves && BestOf(score, moves, best) == score(m)
    decreases |moves|
  {
    if moves != [] {
      var currScore := score(moves[0]);
      BestOfIsMaximum(score, moves[1..], if currScore > best then currScore else best);
      assert forall m :: m in moves ==> m == moves[0] || m in moves[1..];
    }
  }

  /** negaMax's value of a position: material at depth 0, otherwise the best reply score, INT_MIN when there is no move. */
  ghost function NegaMaxScore(B: Board, white: bool, depth: nat): int
    requires WellFormed(B)
    decreases depth, 4
  {
    if depth == 0 then Material(B, white)
    else SearchScore(B, white, depth)
  }

  /**
   * negaMax past its depth test. It is a level of its own, like
   * BestReplyScore below it, so that a position's score expands into the
   * position's move list only where a proof asks for it (NegaMaxScoreIs).
   */
  ghost function SearchScore(B: Board, white: bool, depth: nat): int
    requires WellFormed(B) && depth > 0
    decreases depth, 3
  {
    BestReplyScore(B, white, depth)
  }

  /** The largest reply score over getMoves' list, INT_MIN when the list is empty. */
  ghost function BestReplyScore(B: Board, white: bool, depth: nat): int
    requires WellFormed(B) && depth > 0
    decreases depth, 2
  {
    BestOf(Replies(B, white, depth), LegalMoves(B, white), IntMin)
  }

  /** Above depth 0, negaMax's value is the fold of its loop over the legal moves. */
  lemma NegaMaxScoreIs(B: Board, white: bool, depth: nat)
    requires WellFormed(B) && depth > 0
    ensures NegaMaxScore(B, white, depth) == BestOf(Replies(B, white, depth), LegalMoves(B, white), IntMin)
  {
    assert NegaMaxScore(B, white, depth) == SearchScore(B, white, depth);
    assert SearchScore(B, white, depth) == BestReplyScore(B, white, depth);
  }

  /** The scores negaMax gives the moves of a position `depth` plies deep. */
  ghost function Replies(B: Board, white: bool, depth: nat): Move -> int
    requires WellFormed(B) && depth > 0
    decreases depth, 1
  {
    m => Reply(B, white, depth, m)
  }

  /**
   * The score of `m` for the mover: minus the opponent's negaMax value one
   * ply shallower. Only moves make_move accepts are ever scored; any other
   * move gets INT_MIN.
   */
  ghost function Reply(B: Board, white: bool, depth: nat, m: Move): int
    requires WellFormed(B) && depth > 0
    decreases depth, 0
  {
    if MoveAllowed(B, m) then
      MovePreservesWellFormed(B, m);
      -1 * NegaMaxScore(ApplyMove(B, m), !white, depth - 1)
    else IntMin
  }

  /**
   * negaMax returns the best score the mover can reach: no legal move scores
   * higher, it is reached by a legal move or is INT_MIN, and it is INT_MIN
   * when there is no legal move.
   */
  lemma NegaMaxIsMaximum(B: Board, white: bool, depth: nat)
    requires WellFormed(B) && depth > 0
    ensures LegalMoves(B, white) == [] ==> NegaMaxScore(B, white, depth) == IntMin
    ensures IntMin <= NegaMaxScore(B, white, depth)
    ensures forall m :: m in LegalMoves(B, white) ==> Reply(B, white, depth, m) <= NegaMaxScore(B, white, depth)
    ensures NegaMaxScore(B, white, depth) == IntMin
      || exists m :: m in LegalMoves(B, white) && NegaMaxScore(B, white, depth) == Reply(B, white, depth, m)
  {
    var score := Replies(B, white, depth);
    BestOfIsMaximum(score, LegalMoves(B, white), IntMin);
    NegaMaxScoreIs(B, white, depth);
    assert forall m :: score(m) == Reply(B, white, depth, m);
  }

  /** memcpy of the fourteen boards into the scratch array. */
  method CopyBoards(tmpBoard: array<bv64>, B: Board)
    requires tmpBoard.Length == NumPieceTypes
    modifies tmpBoard
    ensures tmpBoard[..] == B
  {
    forall i | 0 <= i < NumPieceTypes {
      tmpBoard[i] := B[i];
    }
  }

  /** memcpy followed by make_move: the scratch boards hold the position after `m`. */
  method PlayOnCopy(tmpBoard: array<bv64>, B: Board, m: Move)
    requires tmpBoard.Length == NumPieceTypes
    requires WellFormed(B) && MoveAllowed(B, m)
    modifies tmpBoard
    ensures tmpBoard[..] == ApplyMove(B, m)
    ensures WellFormed(tmpBoard[..])
  {
    CopyBoards(tmpBoard, B);
    MakeMove(tmpBoard, m);
    MovePreservesWellFormed(B, m);
  }

  /**
   * negaMax: at depth 0 the material score; otherwise each legal move is
   * scored and the largest score is kept, INT_MIN when there is none.
   */
  method NegaMax(B: Board, whiteToMove: bool, depth: nat) returns (score: int)
    requires WellFormed(B)
    ensures score == NegaMaxScore(B, whiteToMove, depth)
    decreases depth, 2
  {
    if depth == 0 {
      score := EvaluateMaterial(B, whiteToMove);
      return;
    }
    var moveList := GetMoves(B, whiteToMove);
    LegalMovesAllowed(B, whiteToMove);
    var tmpBoard := new bv64[NumPieceTypes];
    score := BestReply(tmpBoard, B, whiteToMove, depth, moveList);
    NegaMaxScoreIs(B, whiteToMove, depth);
  }

  /** negaMax's loop over the move list: the largest score of a move, INT_MIN for an empty list. */
  method BestReply(tmpBoard: array<bv64>, B: Board, whiteToMove: bool, depth: nat, moveList: seq<Move>) returns (bestScore: int)
    requires tmpBoard.Length == NumPieceTypes
    requires WellFormed(B) && depth > 0
    requires forall m :: m in moveList ==> MoveAllowed(B, m)
    modifies tmpBoard
    ensures bestScore == BestOf(Replies(B, whiteToMove, depth), moveList, IntMin)
    decreases depth, 1
  {
    ghost var replies := Replies(B, whiteToMove, depth);
    bestScore := IntMin;
    for i := 0 to |moveList|
      invariant BestOf(replies, moveList[i..], bestScore) == BestOf(replies, moveList, IntMin)
    {
      var m := moveList[i];
      assert m in moveList;
      PlayOnCopy(tmpBoard, B, m);
      var child := tmpBoard[..];
      var childScore := NegaMax(child, !whiteToMove, depth - 1);
      ReplyAfter(B, whiteToMove, depth, m, child);
      var currScore := -1 * childScore;
      assert currScore == replies(m);
      assert moveList[i..][1..] == moveList[i + 1..];
      if currScore > bestScore {
        bestScore := currScore;
      }
    }
    assert moveList[|moveList|..] == [];
  }

  /** What the body of negaMax's and AIMove's loops computes for `m` is its reply score. */
  lemma ReplyAfter(B: Board, white: bool, depth: nat, m: Move, after: Board)
    requires WellFormed(B) && depth > 0 && MoveAllowed(B, m)
    requires after == ApplyMove(B, m) && WellFormed(after)
    ensures Replies(B, white, depth)(m) == -1 * NegaMaxScore(after, !white, depth - 1)
  {
  }

  /**
   * The fold of AIMove's loop: the move kept is replaced by each move whose
   * score is strictly larger than the best so far, so ties go to the
   * earlier move.
   */
  function FirstBest(score: Move -> int, moves: seq<Move>, bestScore: int, bestMove: Move): Move
    decreases |moves|
  {
    if moves == [] then bestMove
    else if score(moves[0]) > bestScore then FirstBest(score, moves[1..], score(moves[0]), moves[0])
    else FirstBest(score, moves[1..], bestScore, bestMove)
  }

  /**
   * FirstBest is the first move with the largest score, when that score
   * beats `bestScore`; otherwise it is the move passed in.
   */
  lemma {:induction false} FirstBestIsFirstMaximum(score: Move -> int, moves: seq<Move>, bestScore: int, bestMove: Move)
    returns (i: int)
    ensures -1 <= i < |moves|
    ensures i == -1 ==>
              && FirstBest(score, moves, bestScore, bestMove) == bestMove
              && (forall j :: 0 <= j < |moves| ==> score(moves[j]) <= bestScore)
    ensures 0 <= i ==>
              && FirstBest(score, moves, bestScore, bestMove) == moves[i]
              && bestScore < score(moves[i])
              && (forall j :: 0 <= j < |moves| ==> score(moves[j]) <= score(moves[i]))
              && (forall j :: 0 <= j < i ==> score(moves[j]) < score(moves[i]))
    decreases |moves|
  {
    if moves != [] {
      var k;
      if score(moves[0]) > bestScore {
        k := FirstBestIsFirstMaximum(score, moves[1..], score(moves[0]), moves[0]);
        i := if k == -1 then 0 else k + 1;
      } else {
        k := FirstBestIsFirstMaximum(score, moves[1..], bestScore, bestMove);
        i := if k == -1 then -1 else k + 1;
      }
      assert forall j :: 0 < j < |moves| ==> moves[j] == moves[1..][j - 1];
    } else {
      i := -1;
    }
  }

  /**
   * AIMove: no move when getMoves finds none (the program exits there);
   * otherwise each legal move is scored by negaMax DEPTH - 1 plies deep from
   * the opponent's side, and `bestMove` takes the first move whose score is
   * strictly larger than all before it.
   */
  method AIMove(B: Board, whiteToMove: bool, bestMove: Move) returns (result: Option<Move>)
    requires WellFormed(B)
    ensures result.None? <==> LegalMoves(B, whiteToMove) == []
    ensures result.Some? ==> result.value == FirstBest(Replies(B, whiteToMove, Depth), LegalMoves(B, whiteToMove), IntMin, bestMove)
  {
    var moveList := GetMoves(B, whiteToMove);
    if moveList == [] {
      return None;
    }
    LegalMovesAllowed(B, whiteToMove);
    var depth := Depth;
    ghost var replies := Replies(B, whiteToMove, depth);
    var bestScore := IntMin;
    var chosen := bestMove;
    var tmpBoard := new bv64[NumPieceTypes];
    for i := 0 to |moveList|
      invariant FirstBest(replies, moveList[i..], bestScore, chosen) == FirstBest(replies, moveList, IntMin, bestMove)
    {
      var m := moveList[i];
      assert m in moveList;
      PlayOnCopy(tmpBoard, B, m);
      var child := tmpBoard[..];
      var childScore := NegaMax(child, !whiteToMove, depth - 1);
      ReplyAfter(B, whiteToMove, depth, m, child);
      var currScore := -1 * childScore;
      assert currScore == replies(m);
      assert moveList[i..][1..] == moveList[i + 1..];
      if currScore > bestScore {
        bestScore := currScore;
        chosen := Move(m.from, m.to, m.piece);
      }
    }
    assert moveList[|moveList|..] == [];
    return Some(chosen);
  }

  /**
   * The move AIMove plays is a legal move no other legal move outscores,
   * and every legal move before it scores strictly less, unless no legal
   * move scores above INT_MIN and the move passed in is returned unchanged.
   */
  lemma AIMoveIsFirstBest(B: Board, whiteToMove: bool, bestMove: Move) returns (i: int)
    requires WellFormed(B)
    ensures var moves := LegalMoves(B, whiteToMove);
      var score := Replies(B, whiteToMove, Depth);
      var chosen := FirstBest(score, moves, IntMin, bestMove);
      && -1 <= i < |moves|
      && (i == -1 ==> chosen == bestMove && forall m :: m in moves ==> score(m) <= IntMin)
      && (0 <= i ==> chosen == moves[i]
                     && (forall m :: m in moves ==> score(m) <= score(moves[i]))
                     && (forall j :: 0 <= j < i ==> score(moves[j]) < score(moves[i])))
  {
    var moves := LegalMoves(B, whiteToMove);
    i := FirstBestIsFirstMaximum(Replies(B, whiteToMove, Depth), moves, IntMin, bestMove);
    assert forall m :: m in moves ==> exists j :: 0 <= j < |moves| && m == moves[j];
  }

  /** INT_MAX of a 32-bit `int`. */
  const IntMax: int := 0x7FFF_FFFF

  /** The 32-bit two's-complement `int` a wider result wraps to. */
  function Int32(y: int): (r: int)
    ensures IntMin <= r <= IntMax
    ensures (r - y) % 0x1_0000_0000 == 0
  {
    (y - IntMin) % 0x1_0000_0000 + IntMin
  }

  /**
   * The reply score as the compiled negaMax and AIMove compute it: the
   * negation `-1 * negaMax(...)` is done in 32-bit `int`, where minus
   * INT_MIN wraps back to INT_MIN.
   */
  ghost function ReplyAsWritten(B: Board, white: bool, depth: nat, m: Move): (r: int)
    requires WellFormed(B) && depth > 0 && MoveAllowed(B, m)
    ensures IntMin <= r <= IntMax
    ensures WellFormed(ApplyMove(B, m))
    ensures var s := NegaMaxScore(ApplyMove(B, m), !white, depth - 1);
      && (IntMin < s <= IntMax ==> r == -s)
      && (s == IntMin ==> r == IntMin)
  {
    MovePreservesWellFormed(B, m);
    Int32(-1 * NegaMaxScore(ApplyMove(B, m), !white, depth - 1))
  }

  /**
   * As written, a move after which the opponent has no legal move scores
   * INT_MIN, the lowest score there is, when searched more than one ply
   * deep: it never beats the INT_MIN that AIMove and negaMax start from, so
   * a mate in one is never chosen.
   */
  lemma NoReplyScoresLowestAsWritten(B: Board, white: bool, depth: nat, m: Move)
    requires WellFormed(B) && depth > 1 && MoveAllowed(B, m)
    requires LegalMoves(ApplyMove(B, m), !white) == []
    ensures ReplyAsWritten(B, white, depth, m) == IntMin
    ensures !(ReplyAsWritten(B, white, depth, m) > IntMin)
  {
    MovePreservesWellFormed(B, m);
    NegaMaxIsMaximum(ApplyMove(B, m), !white, depth - 1);
  }

  /**
   * With the negation done on unbounded integers, a move after which the
   * opponent has no legal move gets the highest score there is, minus
   * INT_MIN, and no move scores more.
   */
  lemma NoReplyScoresHighest(B: Board, white: bool, depth: nat, m: Move)
    requires WellFormed(B) && depth > 1 && MoveAllowed(B, m)
    requires LegalMoves(ApplyMove(B, m), !white) == []
    ensures Reply(B, white, depth, m) == -IntMin
    ensures forall other :: Reply(B, white, depth, other) <= Reply(B, white, depth, m)
  {
    MovePreservesWellFormed(B, m);
    NegaMaxIsMaximum(ApplyMove(B, m), !white, depth - 1);
    forall other ensures Reply(B, white, depth, other) <= -IntMin {
      ReplyAtMost(B, white, depth, other);
    }
  }

  /** No reply score exceeds minus INT_MIN. */
  lemma ReplyAtMost(B: Board, white: bool, depth: nat, m: Move)
    requires WellFormed(B) && depth > 0
    ensures Reply(B, white, depth, m) <= -IntMin
  {
    if MoveAllowed(B, m) {
      MovePreservesWellFormed(B, m);
      NegaMaxLowerBound(ApplyMove(B, m), !white, depth - 1);
    }
  }

  /** negaMax never returns less than INT_MIN, at any depth, with material scores above it. */
  lemma NegaMaxLowerBound(B: Board, white: bool, depth: nat)
    requires WellFormed(B)
    ensures IntMin <= NegaMaxScore(B, white, depth)
  {
    if depth == 0 {
      MaterialBounds(B, white);
    } else {
      NegaMaxIsMaximum(B, white, depth);
    }
  }
}
