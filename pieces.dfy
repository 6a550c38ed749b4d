/** Chess pieces (js/piece.js init, isValidPiece, isOppositeColour). A
    piece is kept as the unchanging data of one ChessPiece object; where
    the object currently stands is kept by the board. */
module Pieces {
  import opened Wrappers
  import opened Text
  import opened Constants

  datatype Colour = White | Black

  function Opposite(c: Colour): Colour {
    if c == White then Black else White
  }

  /** The one-letter FEN name of a colour. */
  function ColourText(c: Colour): string {
    if c == White then "w" else "b"
  }

  datatype Kind = King | Queen | Rook | Bishop | Knight | Pawn

  /** The PIECES letter of a kind. */
  function TypeOf(k: Kind): char {
    match k
    case King => 'k'
    case Queen => 'q'
    case Rook => 'r'
    case Bishop => 'b'
    case Knight => 'n'
    case Pawn => 'p'
  }

  /** isValidPiece: the type is listed in PIECES. */
  predicate IsValidPiece(t: char) {
    IndexOf(PieceTypes, t) != -1
  }

  /** The kind a valid type letter names. */
  function KindOfType(t: char): (k: Option<Kind>)
    ensures k.Some? ==> TypeOf(k.value) == t
  {
    if t == 'k' then Some(King)
    else if t == 'q' then Some(Queen)
    else if t == 'r' then Some(Rook)
    else if t == 'b' then Some(Bishop)
    else if t == 'n' then Some(Knight)
    else if t == 'p' then Some(Pawn)
    else None
  }

  /** One ChessPiece object: its FEN letter, type, colour, the id the board
      gave it, and `serial`, which tells objects apart (the n-th object the
      board creates has serial n). */
  datatype Piece = Piece(letter: char, kind: Kind, colour: Colour, id: nat, serial: nat)

  /** init: the type is the lower-cased letter and must be one of PIECES,
      otherwise construction fails naming the letter; the piece is black
      exactly when its letter is already lower case. */
  function Init(letter: char, id: nat, serial: nat): (r: Result<Piece, char>)
    ensures r.Ok? <==> Lower(letter) in PieceTypes
    ensures r.Err? ==> r.error == letter
    ensures r.Ok? ==>
              && TypeOf(r.value.kind) == Lower(letter)
              && (r.value.colour == Black <==> letter == Lower(letter))
              && r.value.letter == letter && r.value.id == id && r.value.serial == serial
  {
    var t := Lower(letter);
    match KindOfType(t)
    case None => Err(letter)
    case Some(k) => Ok(Piece(letter, k, if letter == t then Black else White, id, serial))
  }

  /** A letter that init accepts (see PieceLetters): the six kinds in
      either case and the Kelvin sign, which lower-cases to 'k' and so
      makes a white king. */
  predicate IsPieceLetter(c: char) {
    || c == 'k' || c == 'q' || c == 'r' || c == 'b' || c == 'n' || c == 'p'
    || c == 'K' || c == 'Q' || c == 'R' || c == 'B' || c == 'N' || c == 'P'
    || c == '\U{212A}'
  }

  /** A piece exactly as init makes it. */
  predicate WellFormed(p: Piece) {
    Init(p.letter, p.id, p.serial) == Ok(p)
  }

  /** isOppositeColour. */
  predicate IsOppositeColour(a: Piece, b: Piece) {
    a.colour != b.colour
  }

  /** init accepts exactly the piece letters, whatever id it is given. */
  lemma PieceLetters(c: char, id: nat, serial: nat)
    ensures Init(c, id, serial).Ok? <==> IsPieceLetter(c)
  {
    if 'A' <= c <= 'Z' {
      assert Lower(c) as int == c as int + 32;
    }
  }

  /** isValidPiece holds exactly for the letters KindOfType names. */
  lemma ValidPieceKinds(t: char)
    ensures IsValidPiece(t) <==> KindOfType(t).Some?
  {
  }

  /** No piece letter is a digit, a blank or a FEN separator. */
  lemma PieceLetterIsNoSeparator(c: char)
    requires IsPieceLetter(c)
    ensures !IsDigit(c) && !IsJsSpace(c) && c != '/' && c != ' '
  {
    assert 'B' <= c <= 'z' || c == '\U{212A}';
  }

  lemma WellFormedShape(p: Piece)
    requires WellFormed(p)
    ensures IsPieceLetter(p.letter)
    ensures p.kind == King ==> p.letter == 'k' || p.letter == 'K' || p.letter == '\U{212A}'
  {
    PieceLetters(p.letter, p.id, p.serial);
  }
}
