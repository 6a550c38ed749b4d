/** Squares and their algebraic names (js/board.js validTextCoordinate,
    validCoordinate). A square is a (row, file) pair; row 0 is rank 1 and
    file 0 is file 'a'. */
module Coords {
  import opened Wrappers
  import opened Text
  import opened Constants

  datatype Square = Square(row: int, file: int)

  /** validCoordinate: both components lie in 0..7. */
  predicate ValidCoordinate(row: int, file: int) {
    !(row > 7 || row < 0 || file > 7 || file < 0)
  }

  predicate OnBoard(sq: Square) {
    ValidCoordinate(sq.row, sq.file)
  }

  /** validTextCoordinate: a file letter then a rank digit, looked up in
      FILES and ROWS. A non-digit second character fails the isNaN test,
      and a blank one (which isNaN lets through) makes parseInt give NaN,
      which ROWS does not hold. */
  function ValidTextCoordinate(s: string): (r: Option<Square>)
    ensures r.Some? <==> |s| == 2 && 'a' <= s[0] <= 'h' && '1' <= s[1] <= '8'
    ensures r.Some? ==>
              && OnBoard(r.value)
              && r.value.row == s[1] as int - '1' as int
              && r.value.file == s[0] as int - 'a' as int
  {
    if |s| != 2 || !IsDigit(s[1]) then None
    else
      FilesIndex(s[0]);
      RowsIndex(DigitValue(s[1]));
      var row := IndexOf(Rows, DigitValue(s[1]));
      var file := IndexOf(Files, s[0]);
      if row == -1 || file == -1 then None
      else if ValidCoordinate(row, file) then Some(Square(row, file))
      else None
  }

  /** The algebraic name of an on-board square. */
  function CoordinateText(sq: Square): (s: string)
    requires OnBoard(sq)
    ensures ValidTextCoordinate(s) == Some(sq)
  {
    FilesAndRowsCount();
    [Files[sq.file], DigitChar(Rows[sq.row] as nat)]
  }

  /** Names and squares correspond one to one: an accepted name is the
      name of the square it denotes. */
  lemma TextCoordinateNamesSquare(s: string)
    requires ValidTextCoordinate(s).Some?
    ensures CoordinateText(ValidTextCoordinate(s).value) == s
  {
  }
}
