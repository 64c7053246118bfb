// The move translation of the command-line game (simple-main.py): plain
// four-character UCI moves with no promotion letter. makeBoard and
// movePiece there are the same as in the lichess engine and are modelled by
// SimpleMain.MakeBoard and SimpleMain.MovePiece.

module SimpleMainCli {
  import opened DataStructs
  import SimpleMain

  /** A move in engine coordinates: (row, col, newRow, newCol). */
  type CliMove = (int, int, int, int)

  /** A file letter the dictionary knows. */
  predicate IsFile(ch: char) { 'a' <= ch <= 'h' }

  /** A rank digit that lands on the board after `8 - int(ch)`. */
  predicate IsRank(ch: char) { '1' <= ch <= '8' }

  /** Both squares of an engine move lie on the board. */
  predicate OnBoard(m: CliMove)
  {
    0 <= m.0 < 8 && 0 <= m.1 < 8 && 0 <= m.2 < 8 && 0 <= m.3 < 8
  }

  /** `translate_engine_to_UCI`: file letter and rank `8 - row` of each square. */
  function EngineToUci(row: int, col: int, newRow: int, newCol: int): (s: string)
    requires OnBoard((row, col, newRow, newCol))
    ensures |s| == 4 && IsFile(s[0]) && IsRank(s[1]) && IsFile(s[2]) && IsRank(s[3])
  {
    [SimpleMain.FileLetter(col), SimpleMain.DigitChar(8 - row),
     SimpleMain.FileLetter(newCol), SimpleMain.DigitChar(8 - newRow)]
  }

  /**
   * `translate_UCI_to_engine`: `None` for a length outside 4..5, for a
   * character `int` or the dictionary rejects, and for a rank that lands off
   * the board; a fifth character is read past.
   */
  function UciToEngine(move: string): (m: Option<CliMove>)
    ensures m.Some? ==> OnBoard(m.value)
  {
    if !(4 <= |move| <= 5) then None
    else
      match (SimpleMain.DigitValue(move[1]), SimpleMain.FileIndex(move[0]),
             SimpleMain.DigitValue(move[3]), SimpleMain.FileIndex(move[2]))
      case (Some(r), Some(c), Some(nr), Some(nc)) =>
        if 0 <= 8 - r < 8 && 0 <= 8 - nr < 8 then Some((8 - r, c, 8 - nr, nc)) else None
      case _ => None
  }

  /** A string is accepted exactly when it is a file, rank, file, rank, and perhaps one more character. */
  lemma UciToEngineAccepts(move: string)
    ensures UciToEngine(move).Some? <==>
      4 <= |move| <= 5 && IsFile(move[0]) && IsRank(move[1]) && IsFile(move[2]) && IsRank(move[3])
  {
  }

  /** Writing an accepted move back gives its first four characters. */
  lemma UciEngineRoundTrip(move: string)
    requires UciToEngine(move).Some?
    ensures var m := UciToEngine(move).value; EngineToUci(m.0, m.1, m.2, m.3) == move[..4]
  {
    var m := UciToEngine(move).value;
    SimpleMain.DigitRoundTrip(8 - m.0, move[1]);
    SimpleMain.DigitRoundTrip(8 - m.2, move[3]);
    SimpleMain.FileRoundTrip(m.1, move[0]);
    SimpleMain.FileRoundTrip(m.3, move[2]);
  }

  /** Reading back what the engine writes gives the same move. */
  lemma EngineUciRoundTrip(row: int, col: int, newRow: int, newCol: int)
    requires OnBoard((row, col, newRow, newCol))
    ensures UciToEngine(EngineToUci(row, col, newRow, newCol)) == Some((row, col, newRow, newCol))
  {
    SimpleMain.DigitRoundTrip(8 - row, '0');
    SimpleMain.DigitRoundTrip(8 - newRow, '0');
    SimpleMain.FileRoundTrip(col, 'a');
    SimpleMain.FileRoundTrip(newCol, 'a');
  }

  /** The fifth character, a promotion letter or anything else, changes nothing. */
  lemma FifthCharacterIgnored(move: string, extra: char)
    requires |move| == 4
    ensures UciToEngine(move + [extra]) == UciToEngine(move)
  {
    var long := move + [extra];
    assert long[0] == move[0] && long[1] == move[1] && long[2] == move[2] && long[3] == move[3];
  }
}
