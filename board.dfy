/** The ChessBoard class of js/board.js: a grid of pieces, the pieces
    registry, the kings table, the id counter and the five FEN fields,
    with its methods loadFEN, parseFENRow, getFEN, setPiece,
    pieceIsAttacked and doMove. Each method is proved to follow the
    functions of the Fen, BoardState, Attack and Moves modules. */
module Board {
  import opened Wrappers
  import opened Text
  import opened Constants
  import opened Coords
  import opened Pieces
  import opened Attack
  import opened Moves
  import opened Fen
  import opened BoardState

  /** The castling flag a key of the castling object names; other keys
      name none. */
  function Flag(c: Castling, k: char): bool {
    if k == 'K' then c.whiteKing
    else if k == 'Q' then c.whiteQueen
    else if k == 'k' then c.blackKing
    else if k == 'q' then c.blackQueen
    else false
  }

  /** The keys among `keys` whose flag is set, in order. */
  function SetKeys(c: Castling, keys: string): string
    decreases |keys|
  {
    if keys == [] then ""
    else SetKeys(c, keys[..|keys| - 1]) + (if Flag(c, keys[|keys| - 1]) then [keys[|keys| - 1]] else "")
  }

  /** getFEN's loop over the castling object, whose keys come in the order
      they were written, K, Q, k, q, gives the castling field. */
  lemma SetKeysText(c: Castling)
    ensures (if SetKeys(c, "KQkq") == "" then "-" else SetKeys(c, "KQkq")) == CastlingText(c)
  {
    assert "KQkq"[..3] == "KQk" && "KQk"[..2] == "KQ" && "KQ"[..1] == "K" && "K"[..0] == "";
  }

  /** What doMove throws, one value per message. */
  datatype MoveError =
    | InvalidCoordinates(from: string, to: string)
    | NoPiece(at: string)
    | NotYourTurn(colour: Colour)
    | OffBoard(square: Square)   // getPiece inside a pawn's validMoves
    | InvalidMove
    | KingMissing                // the other colour has no kings entry

  /** What doMove returns: the captured piece, if any, and the piece
      moved; `check` is the piece whose check on the other king doMove
      announces, if any. */
  datatype MoveOutcome = MoveOutcome(captured: Option<Piece>, piece: Piece, check: Option<Piece>)

  /** The five game fields a FEN text carries beside the placement. */
  datatype Turn = Turn(active: Colour, castling: Castling, enPassant: string, halfMoves: int, fullMoves: int)

  /** doMove's search of the candidates for the destination t: the first
      candidate on t decides; for a pawn, an attack-only candidate needs a
      piece on t and a move-only candidate an empty t. */
  function Accepts(ms: seq<Move>, t: Square, pawn: bool, target: Option<Piece>): bool
    decreases |ms|
  {
    if ms == [] then false
    else if ms[0].row == t.row && ms[0].file == t.file then
      !(pawn && ((ms[0].tag == AttackOnly && target.None?) || (ms[0].tag == MoveOnly && target.Some?)))
    else Accepts(ms[1..], t, pawn, target)
  }

  /** A destination is accepted only when some candidate names it. */
  lemma {:induction false} AcceptedIsCandidate(ms: seq<Move>, t: Square, pawn: bool, target: Option<Piece>)
    requires Accepts(ms, t, pawn, target)
    ensures exists mv :: mv in ms && mv.row == t.row && mv.file == t.file
    decreases |ms|
  {
    if !(ms[0].row == t.row && ms[0].file == t.file) {
      AcceptedIsCandidate(ms[1..], t, pawn, target);
      var mv :| mv in ms[1..] && mv.row == t.row && mv.file == t.file;
      assert mv in ms;
    }
  }

  /** The search is decided by the first candidate on t: when one exists,
      t is accepted exactly when that candidate's tag fits what stands on t
      (any tag for a piece other than a pawn). */
  lemma {:induction false} FirstCandidateDecides(ms: seq<Move>, t: Square, pawn: bool, target: Option<Piece>, i: nat)
    requires i < |ms| && ms[i].row == t.row && ms[i].file == t.file
    requires forall j :: 0 <= j < i ==> !(ms[j].row == t.row && ms[j].file == t.file)
    ensures Accepts(ms, t, pawn, target) <==>
              !(pawn && ((ms[i].tag == AttackOnly && target.None?) || (ms[i].tag == MoveOnly && target.Some?)))
    decreases i
  {
    if i > 0 {
      assert !(ms[0].row == t.row && ms[0].file == t.file);
      assert forall j :: 0 <= j < i - 1 ==> ms[1..][j] == ms[j + 1];
      FirstCandidateDecides(ms[1..], t, pawn, target, i - 1);
    }
  }

  /** For a piece other than a pawn, any candidate on t gets t accepted. */
  lemma {:induction false} CandidateAccepted(ms: seq<Move>, t: Square, target: Option<Piece>, mv: Move)
    requires mv in ms && mv.row == t.row && mv.file == t.file
    ensures Accepts(ms, t, false, target)
    decreases |ms|
  {
    if !(ms[0].row == t.row && ms[0].file == t.file) {
      assert mv in ms[1..];
      CandidateAccepted(ms[1..], t, target, mv);
    }
  }

  /** doMove's checks before it moves anything, on the grid g with
      `active` to move: both coordinates must name squares, the origin
      must hold a piece of the side to move, the piece's candidates must
      be computable, and they must accept the destination. The result is
      the piece with its origin and destination. */
  function Judge(g: Grid, active: Colour, from: string, to: string): (r: Result<(Piece, Square, Square), MoveError>)
    requires IsGrid(g)
    ensures r.Ok? ==> OnBoard(r.value.1) && OnBoard(r.value.2) && g[r.value.1.row][r.value.1.file] == Some(r.value.0)
  {
    var f := ValidTextCoordinate(from);
    var t := ValidTextCoordinate(to);
    if f.None? || t.None? then Err(InvalidCoordinates(from, to))
    else
      var piece := g[f.value.row][f.value.file];
      if piece.None? then Err(NoPiece(from))
      else if piece.value.colour != active then Err(NotYourTurn(piece.value.colour))
      else match ValidMoves(g, piece.value, f.value)
        case Err(sq) => Err(OffBoard(sq))
        case Ok(ms) =>
          if Accepts(ms, t.value, piece.value.kind == Pawn, g[t.value.row][t.value.file]) then Ok((piece.value, f.value, t.value))
          else Err(InvalidMove)
  }

  /** doMove's loop over the candidates, stopping at the first that
      names the destination. */
  method SearchCandidates(ms: seq<Move>, t: Square, pawn: bool, target: Option<Piece>) returns (isValid: bool)
    ensures isValid == Accepts(ms, t, pawn, target)
  {
    var i := 0;
    while i < |ms|
      invariant 0 <= i <= |ms|
      invariant Accepts(ms[i..], t, pawn, target) == Accepts(ms, t, pawn, target)
    {
      var coord := ms[i];
      assert ms[i..][0] == coord && ms[i..][1..] == ms[i + 1..];
      if t.row == coord.row && t.file == coord.file {
        if pawn && coord.tag != Untagged {
          var attackOnly := coord.tag == AttackOnly;
          var moveOnly := coord.tag == MoveOnly;
          if (attackOnly && target.None?) || (moveOnly && target.Some?) {
            return false;
          }
        }
        return true;
      }
      i := i + 1;
    }
    return false;
  }

  /** What an accepted move has passed: the squares named, the piece on
      the origin, its colour, and its candidates accepting the destination. */
  lemma JudgeAccepted(g: Grid, active: Colour, from: string, to: string)
    requires IsGrid(g)
    requires Judge(g, active, from, to).Ok?
    ensures var (p, f, t) := Judge(g, active, from, to).value;
            && ValidTextCoordinate(from) == Some(f) && ValidTextCoordinate(to) == Some(t)
            && g[f.row][f.file] == Some(p) && p.colour == active
            && ValidMoves(g, p, f).Ok?
            && Accepts(ValidMoves(g, p, f).value, t, p.kind == Pawn, g[t.row][t.file])
  {
  }

  /** A destination the candidates of p accept is another square, on the
      board, empty or held by the other colour. */
  lemma AcceptedLands(g: Grid, p: Piece, f: Square, t: Square)
    requires IsGrid(g) && OnBoard(f) && g[f.row][f.file] == Some(p)
    requires ValidMoves(g, p, f).Ok?
    requires Accepts(ValidMoves(g, p, f).value, t, p.kind == Pawn, PieceSafe(g, t.row, t.file))
    ensures OnBoard(t) && f != t
    ensures PieceSafe(g, t.row, t.file).None? || PieceSafe(g, t.row, t.file).value.colour != p.colour
  {
    var ms := ValidMoves(g, p, f).value;
    AcceptedIsCandidate(ms, t, p.kind == Pawn, PieceSafe(g, t.row, t.file));
    CandidatesLand(g, p, f);
    var mv :| mv in ms && mv.row == t.row && mv.file == t.file;
    assert Lands(g, p.colour, t.row, t.file);
  }

  /** A move doMove accepts is made by a piece of the side to move from
      the origin it names, ends on another square, and never captures a
      piece of the mover's own colour. */
  lemma LegalMoveLands(g: Grid, active: Colour, from: string, to: string)
    requires IsGrid(g)
    requires Judge(g, active, from, to).Ok?
    ensures var (p, f, t) := Judge(g, active, from, to).value;
            && OnBoard(f) && OnBoard(t) && f != t
            && g[f.row][f.file] == Some(p) && p.colour == active
            && (g[t.row][t.file].None? || g[t.row][t.file].value.colour != active)
  {
    JudgeAccepted(g, active, from, to);
    var (p, f, t) := Judge(g, active, from, to).value;
    assert PieceSafe(g, t.row, t.file) == g[t.row][t.file];
    AcceptedLands(g, p, f, t);
  }

  /** The square a piece records; pieceIsAttacked reads a piece whose row
      and file are false as standing on row 0, file 0, since arithmetic
      turns false into 0. */
  function Place(st: Setup, p: Piece): Square
    requires p.serial < |st.places|
  {
    if st.places[p.serial].Some? then st.places[p.serial].value else Square(0, 0)
  }

  /** The game fields after `p` moves, `captured` being what stood on
      its destination: the colour to move flips, the full-move number
      grows after Black moves, the half-move clock grows unless the move
      captured or moved a pawn, and the castling flags follow
      CastlingAfter. */
  function Played(turn: Turn, p: Piece, captured: Option<Piece>): Turn {
    Turn(Opposite(turn.active), CastlingAfter(turn.castling, p), turn.enPassant,
         if captured.None? && p.kind != Pawn then turn.halfMoves + 1 else turn.halfMoves,
         if turn.active == Black then turn.fullMoves + 1 else turn.fullMoves)
  }

  /** doMove on a position st with game fields `turn`: its result and the
      pieces, tables and game fields it leaves. A move Judge refuses
      throws before anything changes; an accepted one is made by
      MakeMove. */
  function Play(st: Setup, turn: Turn, from: string, to: string): (Result<MoveOutcome, MoveError>, Setup, Turn)
    requires Sound(st)
  {
    var j := Judge(st.grid, turn.active, from, to);
    if j.Err? then (Err(j.error), st, turn)
    else
      var (p, f, t) := j.value;
      MakeMove(st, turn, p, t)
  }

  /** doMove once the move of p to t is accepted: setPiece puts p on t;
      a board without the other colour's king then throws, the move made;
      otherwise the piece attacking that king, if any, is the check, and
      the game fields become Played's. */
  function MakeMove(st: Setup, turn: Turn, p: Piece, t: Square): (Result<MoveOutcome, MoveError>, Setup, Turn)
    requires Sound(st) && OnBoard(t) && IsObject(st, p)
  {
    PutKeepsSound(st, Some(p), t.row, t.file);
    var st1 := Put(st, Some(p), t.row, t.file);
    var opposite := Opposite(p.colour);
    if opposite !in st1.kings then (Err(KingMissing), st1, turn)
    else
      var at := Place(st1, st1.kings[opposite]);
      var captured := st.grid[t.row][t.file];
      (Ok(MoveOutcome(captured, p, Attacker(st1.grid, at.row, at.file, p.colour))), st1, Played(turn, p, captured))
  }

  /** doMove's contract on values, for a move Judge refuses: the error is
      Judge's and nothing changes. */
  lemma PlayRefused(st: Setup, turn: Turn, from: string, to: string)
    requires Sound(st) && Judge(st.grid, turn.active, from, to).Err?
    ensures Play(st, turn, from, to) == (Err(Judge(st.grid, turn.active, from, to).error), st, turn)
  {
  }

  /** doMove's contract on values, for a move Judge accepts: the piece of
      the side to move goes from its origin to another square that was
      empty or held the other colour, the origin empties, every other
      square stays, a captured piece is marked off the board and out of
      the registry, and the tables stay sound and in agreement. The move
      throws afterwards exactly when the other colour has no king;
      otherwise it reports the capture and sets the game fields as Played
      says. */
  lemma PlayMoves(st: Setup, turn: Turn, from: string, to: string)
    requires Sound(st) && Judge(st.grid, turn.active, from, to).Ok?
    ensures var (r, st2, turn2) := Play(st, turn, from, to);
            var (p, f, t) := Judge(st.grid, turn.active, from, to).value;
            var captured := st.grid[t.row][t.file];
            && p.colour == turn.active && f != t && OnBoard(f) && OnBoard(t)
            && (captured.None? || captured.value.colour != p.colour)
            && Sound(st2) && (Agree(st) ==> Agree(st2))
            && st2.kings == st.kings && st2.created == st.created && st2.counter == st.counter
            && (forall rr, ff :: 0 <= rr < 8 && 0 <= ff < 8 ==>
                  st2.grid[rr][ff] == if Square(rr, ff) == t then Some(p)
                                      else if Square(rr, ff) == f then None
                                      else st.grid[rr][ff])
            && (captured.Some? ==> captured.value.serial < |st2.places| && st2.places[captured.value.serial] == None)
            && (Agree(st) && captured.Some? ==> st2.registry == st.registry[captured.value.id := None])
            && (r.Err? <==> Opposite(p.colour) !in st.kings)
            && (r.Err? ==> r.error == KingMissing && turn2 == turn)
            && (r.Ok? ==> r.value.captured == captured && r.value.piece == p && turn2 == Played(turn, p, captured))
  {
    var (p, f, t) := Judge(st.grid, turn.active, from, to).value;
    LegalMoveLands(st.grid, turn.active, from, to);
    PutKeepsSound(st, Some(p), t.row, t.file);
    PutMoves(st, p, f, t);
    if Agree(st) {
      PutMoveAgrees(st, p, f, t);
    }
  }

  /** The game fields over one move of each side, White first: White is
      to move again, the full-move number has grown by one, the half-move
      clock has not shrunk and the en-passant text is as it was. */
  lemma MovePair(turn: Turn, p: Piece, c: Option<Piece>, q: Piece, d: Option<Piece>)
    requires turn.active == White
    ensures var after := Played(Played(turn, p, c), q, d);
            && after.active == White && after.fullMoves == turn.fullMoves + 1
            && turn.halfMoves <= after.halfMoves <= turn.halfMoves + 2
            && after.enPassant == turn.enPassant
  {
  }

  /** The castling flags after `p` moves: a king's move clears both flags
      of its colour. A rook's move clears nothing: the source compares
      the rook's file, a number, with the letters 'h' and 'a', which never
      holds. */
  function CastlingAfter(c: Castling, p: Piece): (r: Castling)
    ensures p.kind != King ==> r == c
    ensures p.kind == King && p.colour == White ==> !r.whiteKing && !r.whiteQueen && r.blackKing == c.blackKing && r.blackQueen == c.blackQueen
    ensures p.kind == King && p.colour == Black ==> !r.blackKing && !r.blackQueen && r.whiteKing == c.whiteKing && r.whiteQueen == c.whiteQueen
  {
    if p.kind == King then
      if p.colour == White then c.(whiteQueen := false, whiteKing := false)
      else c.(blackQueen := false, blackKing := false)
    else c
  }

  /** The pieces parseFENRow creates for a rank that reads: its letters
      from file 0 to file 7. */
  function RankPieces(row: int, s: string): (items: seq<Occupant>)
    requires 0 <= row < 8 && ParseRank(row, s).Ok?
    ensures OccupantsValid(items)
  {
    ParsedRankIsRow(row, s);
    RowOrderValid(row, ParseRank(row, s).value);
    RowOrder(row, ParseRank(row, s).value)
  }

  lemma CellsAppend(a: seq<Option<char>>, b: seq<Option<char>>)
    requires LettersValid(a) && LettersValid(b)
    ensures LettersValid(a + b)
  {
    assert forall i :: |a| <= i < |a + b| ==> (a + b)[i] == b[i - |a|];
  }

  /** parseFENRow after the first i characters of s: the scan of them
      has not failed, the file counter is NaN exactly when the scan met
      white space and otherwise counts the squares filled, and `items` are
      the pieces placed so far. */
  predicate Scanned(row: int, s: string, i: int, scan: RankScan, file: int, nan: bool, items: seq<Occupant>) {
    && 0 <= row < 8 && 0 <= i <= |s|
    && ScanFrom(RankStart, s[..i]) == Ok(scan)
    && nan == scan.blank && (!nan ==> file == |scan.cells|)
    && LettersValid(scan.cells)
    && items == RowOrder(row, scan.cells) && OccupantsValid(items)
  }

  lemma ScanNext(s: string, i: int, scan: RankScan)
    requires 0 <= i < |s| && ScanFrom(RankStart, s[..i]) == Ok(scan)
    ensures ScanFrom(RankStart, s[..i + 1]) == ScanStep(scan, s[i])
  {
    ScanSnoc(RankStart, s[..i], s[i]);
    assert s[..i + 1] == s[..i] + [s[i]];
  }

  /** A digit moves a counting file on by its value. */
  lemma DigitStep(row: int, s: string, i: int, scan: RankScan, file: int, nan: bool, items: seq<Occupant>)
    requires Scanned(row, s, i, scan, file, nan, items) && i < |s| && IsDigit(s[i])
    ensures ScanStep(scan, s[i]).Ok?
    ensures Scanned(row, s, i + 1, ScanStep(scan, s[i]).value, if nan then file else file + DigitValue(s[i]), nan, items)
  {
    ScanNext(s, i, scan);
    if !nan {
      RowOrderBlanks(row, scan.cells, DigitValue(s[i]));
      CellsAppend(scan.cells, Blanks(DigitValue(s[i])));
    }
  }

  /** White space makes the file NaN. */
  lemma SpaceStep(row: int, s: string, i: int, scan: RankScan, file: int, nan: bool, items: seq<Occupant>)
    requires Scanned(row, s, i, scan, file, nan, items) && i < |s| && !IsDigit(s[i]) && IsJsSpace(s[i])
    ensures ScanStep(scan, s[i]).Ok?
    ensures Scanned(row, s, i + 1, ScanStep(scan, s[i]).value, file, true, items)
  {
    ScanNext(s, i, scan);
  }

  /** A letter init refuses fails the whole rank. */
  lemma BadLetterStep(row: int, s: string, i: int, scan: RankScan, file: int, nan: bool, items: seq<Occupant>)
    requires Scanned(row, s, i, scan, file, nan, items) && i < |s|
    requires !IsDigit(s[i]) && !IsJsSpace(s[i]) && !IsPieceLetter(s[i])
    ensures ParseRank(row, s) == Err(PieceInvalid(s[i]))
  {
    ScanNext(s, i, scan);
    ScanAppend(RankStart, s[..i + 1], s[i + 1..]);
    assert s[..i + 1] + s[i + 1..] == s;
  }

  /** A letter init accepts fills the next square, and places a piece
      there while the file counts and is below 8. */
  lemma LetterStep(row: int, s: string, i: int, scan: RankScan, file: int, nan: bool, items: seq<Occupant>)
    requires Scanned(row, s, i, scan, file, nan, items) && i < |s|
    requires !IsDigit(s[i]) && !IsJsSpace(s[i]) && IsPieceLetter(s[i])
    ensures ScanStep(scan, s[i]).Ok?
    ensures Scanned(row, s, i + 1, ScanStep(scan, s[i]).value, if nan then file else file + 1, nan,
                    if !nan && file < 8 then items + [Occupant(Square(row, file), s[i])] else items)
  {
    ScanNext(s, i, scan);
    if !nan {
      RowOrderSnoc(row, scan.cells, Some(s[i]));
      CellsAppend(scan.cells, [Some(s[i])]);
      if file < 8 {
        OccupantsJoin(items, [Occupant(Square(row, file), s[i])]);
      }
    }
  }

  /** At the end of the text the rank reads exactly when the file counts
      and has reached 8, and then `items` are its pieces. */
  lemma RankEnd(row: int, s: string, scan: RankScan, file: int, nan: bool, items: seq<Occupant>)
    requires Scanned(row, s, |s|, scan, file, nan, items)
    ensures ParseRank(row, s).Ok? <==> !nan && file == 8
    ensures ParseRank(row, s).Err? ==> ParseRank(row, s).error == RankFiles(row, s)
    ensures ParseRank(row, s).Ok? ==> items == RankPieces(row, s)
  {
    assert s[..|s|] == s;
  }

  /** START_FEN reads in full, and its placement field is the start placement. */
  lemma StartFenPlacement()
    ensures FieldsRead(StartFen) == 6
    ensures ParsePlacement(Split(StartFen, ' ')[0]).Ok?
    ensures ReadPlacement(Split(StartFen, ' ')[0]) == StartPlacement
  {
    StartFenReads();
    ParseFenFields(StartFen);
  }

  /** The placement of a placement field that reads. */
  function ReadPlacement(field: string): (p: Placement)
    requires ParsePlacement(field).Ok?
    ensures IsPlacement(p)
  {
    PlacementIsWellFormed(field);
    ParsePlacement(field).value
  }

  /** How many of the six fields loadFEN gets through before it throws:
      0 when the text has not six fields or the placement fails, 6 when
      every field reads. */
  function FieldsRead(fen: string): (n: nat)
    ensures n <= 6
    ensures n == 6 <==> ParseFen(fen).Ok?
    ensures n >= 1 ==> |Split(fen, ' ')| == 6 && ParsePlacement(Split(fen, ' ')[0]).Ok?
    ensures n >= 2 ==> ParseColour(Split(fen, ' ')[1]).Ok?
    ensures n >= 3 ==> ParseCastling(Split(fen, ' ')[2]).Ok?
    ensures n >= 4 ==> ParseEnPassant(Split(fen, ' ')[3]).Ok?
    ensures n >= 5 ==> ParseNumeral(Split(fen, ' ')[4]).Some?
    ensures n >= 6 ==> ParseNumeral(Split(fen, ' ')[5]).Some?
  {
    var parts := Split(fen, ' ');
    if |parts| != 6 || ParsePlacement(parts[0]).Err? then 0
    else 1 + GameFieldsRead(parts)
  }

  /** How many of the five fields after the placement read before the
      first that fails: colour, castling, en passant, half-move clock,
      full-move number. */
  function GameFieldsRead(parts: seq<string>): (n: nat)
    requires |parts| == 6
    ensures n <= 5
    ensures n >= 1 ==> ParseColour(parts[1]).Ok?
    ensures n >= 2 ==> ParseCastling(parts[2]).Ok?
    ensures n >= 3 ==> ParseEnPassant(parts[3]).Ok?
    ensures n >= 4 ==> ParseNumeral(parts[4]).Some?
    ensures n == 5 <==> && ParseColour(parts[1]).Ok? && ParseCastling(parts[2]).Ok?
                        && ParseEnPassant(parts[3]).Ok? && ParseNumeral(parts[4]).Some?
                        && ParseNumeral(parts[5]).Some?
  {
    if ParseColour(parts[1]).Err? then 0
    else if ParseCastling(parts[2]).Err? then 1
    else if ParseEnPassant(parts[3]).Err? then 2
    else if ParseNumeral(parts[4]).None? then 3
    else if ParseNumeral(parts[5]).None? then 4
    else 5
  }

  /** The error of the first of those five fields that fails. */
  function GameFieldError(parts: seq<string>): (e: Option<FenError>)
    requires |parts| == 6
    ensures e.None? <==> GameFieldsRead(parts) == 5
  {
    if ParseColour(parts[1]).Err? then Some(ParseColour(parts[1]).error)
    else if ParseCastling(parts[2]).Err? then Some(ParseCastling(parts[2]).error)
    else if ParseEnPassant(parts[3]).Err? then Some(ParseEnPassant(parts[3]).error)
    else if ParseNumeral(parts[4]).None? then Some(HalfMoves(parts[4]))
    else if ParseNumeral(parts[5]).None? then Some(FullMoves(parts[5]))
    else None
  }

  /** Once the six fields split and the placement reads, loadFEN's outcome
      is decided by the five fields after it. */
  lemma FenAfterPlacement(fen: string)
    requires |Split(fen, ' ')| == 6 && ParsePlacement(Split(fen, ' ')[0]).Ok?
    ensures var parts := Split(fen, ' ');
      && FieldsRead(fen) == 1 + GameFieldsRead(parts)
      && (ParseFen(fen).Ok? <==> GameFieldError(parts).None?)
      && (ParseFen(fen).Err? ==> ParseFen(fen).error == GameFieldError(parts).value)
      && (ParseFen(fen).Ok? ==>
            ParseFen(fen).value == FenRecord(ParsePlacement(parts[0]).value, ParseColour(parts[1]).value, ParseCastling(parts[2]).value,
                      parts[3], ParseNumeral(parts[4]).value, ParseNumeral(parts[5]).value))
  {
  }

  /** loadFEN's castling loop: every flag false, then, unless the field
      is '-', each character that names a flag sets it. */
  method CastlingFlags(field: string) returns (c: Castling)
    requires |field| <= 4
    ensures Ok(c) == ParseCastling(field)
  {
    c := NoCastling;
    if field != "-" {
      var i := 0;
      while i < |field|
        invariant 0 <= i <= |field|
        invariant c == CastlingOf(field[..i])
      {
        assert field[..i + 1] == field[..i] + [field[i]];
        var curr := field[i];
        if curr == 'K' {
          c := c.(whiteKing := true);
        } else if curr == 'Q' {
          c := c.(whiteQueen := true);
        } else if curr == 'k' {
          c := c.(blackKing := true);
        } else if curr == 'q' {
          c := c.(blackQueen := true);
        }
        i := i + 1;
      }
      assert field[..i] == field;
    }
  }

  /** Loading more pieces onto a sound board, and setting the counter
      anywhere, keeps it sound. */
  lemma SoundAfter(st: Setup, items: seq<Occupant>, n: nat)
    requires Sound(st) && OccupantsValid(items)
    ensures Sound(AddAll(st, items).(counter := n))
  {
    AddAllKeepsSound(st, items);
    CounterFree(AddAll(st, items), n);
  }

  /** loadFEN's rank loop once rows `row` to 7 are read: each rank text
      for them reads as the row kept in `done` (done[i] is row row + i),
      and `made` lists their pieces, the highest row first. */
  predicate RanksRead(ranks: seq<string>, row: int, done: seq<seq<Option<char>>>, made: seq<Occupant>) {
    && |ranks| == 8 && 0 <= row <= 8 && |done| == 8 - row
    && (forall j :: 0 <= j < 8 - row ==> RankKept(ranks, done, j))
    && (forall i :: 0 <= i < |done| ==> LettersValid(done[i]))
    && made == Upper(done, row) && OccupantsValid(made)
  }

  /** Rank text j, for row 7 - j, reads as the row `done` keeps for it;
      `done` holds the rows read so far, lowest first. */
  predicate RankKept(ranks: seq<string>, done: seq<seq<Option<char>>>, j: int) {
    && 0 <= j < |done| <= 8 && j < |ranks|
    && ParseRank(7 - j, ranks[j]) == Ok(done[|done| - 1 - j])
  }

  /** Reading one more rank, the next row down. */
  lemma RanksReadStep(ranks: seq<string>, row: int, done: seq<seq<Option<char>>>, made: seq<Occupant>, more: seq<Occupant>)
    requires RanksRead(ranks, row, done, made) && row > 0
    requires ParseRank(row - 1, ranks[8 - row]).Ok? && more == RankPieces(row - 1, ranks[8 - row])
    ensures RanksRead(ranks, row - 1, [ParseRank(row - 1, ranks[8 - row]).value] + done, made + more)
  {
    var cells := ParseRank(row - 1, ranks[8 - row]).value;
    ParsedRankIsRow(row - 1, ranks[8 - row]);
    UpperCons(cells, done, row - 1);
    RowsValidCons(cells, done);
    UpperValid([cells] + done, row - 1);
    KeptCons(ranks, row, done, cells);
  }

  lemma RowsValidCons(cells: seq<Option<char>>, done: seq<seq<Option<char>>>)
    requires LettersValid(cells) && forall i :: 0 <= i < |done| ==> LettersValid(done[i])
    ensures forall i :: 0 <= i < |[cells] + done| ==> LettersValid(([cells] + done)[i])
  {
    forall i | 0 <= i < |[cells] + done| ensures LettersValid(([cells] + done)[i]) {
      if i > 0 {
        assert ([cells] + done)[i] == done[i - 1];
      }
    }
  }

  /** The ranks read before stay kept when the next row down is read. */
  lemma KeptCons(ranks: seq<string>, row: int, done: seq<seq<Option<char>>>, cells: seq<Option<char>>)
    requires |ranks| == 8 && 0 < row <= 8 && |done| == 8 - row
    requires forall j :: 0 <= j < 8 - row ==> RankKept(ranks, done, j)
    requires ParseRank(row - 1, ranks[8 - row]) == Ok(cells)
    ensures forall j :: 0 <= j < 9 - row ==> RankKept(ranks, [cells] + done, j)
  {
    var done' := [cells] + done;
    forall j | 0 <= j < 9 - row ensures RankKept(ranks, done', j) {
      if j < 8 - row {
        assert RankKept(ranks, done, j);
        assert done'[8 - row - j] == done[7 - row - j];
      }
    }
  }

  /** loadFEN's rank loop stops at the first rank, from row 7 down, that
      does not read, and fails with its error. */
  lemma RanksReadFail(field: string, row: int, done: seq<seq<Option<char>>>, made: seq<Occupant>)
    requires RanksRead(Split(field, '/'), row, done, made) && row > 0
    requires ParseRank(row - 1, Split(field, '/')[8 - row]).Err?
    ensures ParsePlacement(field) == Err(ParseRank(row - 1, Split(field, '/')[8 - row]).error)
  {
    var results := RankResults(Split(field, '/'));
    forall j | 0 <= j < 8 - row ensures results[j].Ok? {
      assert RankKept(Split(field, '/'), done, j);
    }
    RanksFirstError(results, 0, 8 - row);
  }

  /** When every rank reads, the placement is the rows read and `made`
      lists its letters in text order. */
  lemma AllRanksRead(field: string, done: seq<seq<Option<char>>>, made: seq<Occupant>)
    requires RanksRead(Split(field, '/'), 0, done, made)
    ensures ParsePlacement(field) == Ok(done)
    ensures made == TextOrder(done)
  {
    var ranks := Split(field, '/');
    var results := RankResults(ranks);
    forall j | 0 <= j < 8 ensures results[j] == Ok(done[7 - j]) {
      assert RankKept(ranks, done, j);
      assert results[j] == ParseRank(7 - j, ranks[j]);
    }
    RanksAllRead(results, 0);
    var p := CollectRows(results, 0).value;
    forall r | 0 <= r < 8 ensures p[r] == done[r] {
      assert results[7 - r] == Ok(done[r]);
    }
    assert p == done;
  }

  class ChessBoard {
    var board: Grid
    /** pieces: id to piece, None once the piece was captured. */
    var pieces: map<nat, Option<Piece>>
    var kings: map<Colour, Piece>
    /** Every ChessPiece object this board made, by serial, and the row and
        file each one holds (None when both are false). */
    var created: seq<Piece>
    var places: seq<Option<Square>>
    var pieceIdCounter: nat
    var activeColour: Colour
    var castling: Castling
    var enPassant: string
    var halfMoves: int
    var fullMoves: int

    /** The pieces, the registry and the counter as one value. */
    function Snapshot(): Setup
      reads this
    {
      Setup(board, pieces, kings, created, places, pieceIdCounter)
    }

    /** The game fields outside the board and its tables. */
    function Status(): Turn
      reads this
    {
      Turn(activeColour, castling, enPassant, halfMoves, fullMoves)
    }

    /** The position the board holds, as a FEN record. */
    function Record(): FenRecord
      reads this
    {
      FenRecord(Letters(board), activeColour, castling, enPassant, halfMoves, fullMoves)
    }

    predicate Valid()
      reads this
    {
      Sound(Snapshot()) && (enPassant == "-" || ValidTextCoordinate(enPassant).Some?)
    }

    /** The constructor and init: empty tables and a zero counter, then
        the start position loaded. */
    constructor()
      ensures Valid() && Agree(Snapshot())
      ensures Record() == StartRecord
      ensures Snapshot() == StartSetup()
      ensures White in kings && Black in kings && pieceIdCounter == 32 && |created| == 32
    {
      board := EmptyGrid;
      pieces := map[];
      kings := map[];
      created := [];
      places := [];
      pieceIdCounter := 0;
      activeColour := White;
      castling := NoCastling;
      enPassant := "-";
      halfMoves := 0;
      fullMoves := 0;
      new;
      assert Snapshot() == Fresh;
      FreshSound();
      var err := LoadFEN(StartFen);
      StartFenReads();
      StartFenPlacement();
      StartLoaded();
    }

    /** loadFEN: reset the id counter; split the text into six fields;
        empty the board; read the ranks, from rank 8 (row 7) down; then
        the active colour, the castling flags, the en-passant square and
        the two clocks. The first field that fails throws, leaving the
        fields before it set; pieces and kings entries of an earlier
        position stay in their tables. */
    method LoadFEN(fen: string) returns (err: Option<FenError>)
      requires Valid()
      modifies this
      ensures Valid()
      ensures err.None? <==> ParseFen(fen).Ok?
      ensures err.Some? ==> err.value == ParseFen(fen).error
      ensures err.None? ==> Record() == ParseFen(fen).value && Agree(Snapshot())
      ensures |Split(fen, ' ')| != 6 ==> Snapshot() == old(Snapshot()).(counter := 0)
      ensures |Split(fen, ' ')| == 6 && |Split(Split(fen, ' ')[0], '/')| != 8 ==> Snapshot() == Cleared(old(Snapshot()))
      ensures FieldsRead(fen) >= 1 ==>
                && Snapshot() == Load(old(Snapshot()), ReadPlacement(Split(fen, ' ')[0]))
                && Agree(Snapshot())
      ensures activeColour == if FieldsRead(fen) >= 2 then ParseColour(Split(fen, ' ')[1]).value else old(activeColour)
      ensures castling == if FieldsRead(fen) >= 3 then ParseCastling(Split(fen, ' ')[2]).value else old(castling)
      ensures enPassant == if FieldsRead(fen) >= 4 then Split(fen, ' ')[3] else old(enPassant)
      ensures halfMoves == if FieldsRead(fen) >= 5 then ParseNumeral(Split(fen, ' ')[4]).value else old(halfMoves)
      ensures fullMoves == if FieldsRead(fen) >= 6 then ParseNumeral(Split(fen, ' ')[5]).value else old(fullMoves)
    {
      pieceIdCounter := 0;
      var fenParts := Split(fen, ' ');
      if |fenParts| != 6 {
        return Some(FieldCount);
      }
      err := LoadPlacement(fenParts[0]);
      if err.Some? {
        return;
      }
      FenAfterPlacement(fen);
      err := ReadGameFields(fenParts);
    }

    /** loadFEN's board: every square emptied, then the ranks read. An
        error leaves the pieces read so far on the board and in the
        tables. */
    method LoadPlacement(field: string) returns (err: Option<FenError>)
      requires Sound(Snapshot()) && pieceIdCounter == 0
      modifies this
      ensures Sound(Snapshot())
      ensures Status() == old(Status())
      ensures err.None? <==> ParsePlacement(field).Ok?
      ensures err.Some? ==> err.value == ParsePlacement(field).error
      ensures |Split(field, '/')| != 8 ==> Snapshot() == Cleared(old(Snapshot()))
      ensures err.None? ==>
                && Snapshot() == Load(old(Snapshot()), ReadPlacement(field))
                && Agree(Snapshot()) && Letters(board) == ReadPlacement(field)
    {
      ghost var st0 := Snapshot();
      ClearBoard();
      assert Snapshot() == Cleared(st0);
      ghost var made;
      err, made := LoadRanks(field);
      if err.Some? {
        SoundAfter(Cleared(st0), made, pieceIdCounter);
        return;
      }
      ghost var p := ReadPlacement(field);
      LoadedAgree(st0, p);
      LoadedLetters(st0, p);
    }

    /** loadFEN after the ranks: the active colour, the castling flags
        (a field longer than four characters throws), the en-passant
        square and the two clocks, each set as soon as it reads, the
        first that fails throwing. The board and its tables stay. */
    method ReadGameFields(fenParts: seq<string>) returns (err: Option<FenError>)
      requires |fenParts| == 6
      modifies this
      ensures Snapshot() == old(Snapshot())
      ensures err == GameFieldError(fenParts)
      ensures activeColour == if GameFieldsRead(fenParts) >= 1 then ParseColour(fenParts[1]).value else old(activeColour)
      ensures castling == if GameFieldsRead(fenParts) >= 2 then ParseCastling(fenParts[2]).value else old(castling)
      ensures enPassant == if GameFieldsRead(fenParts) >= 3 then fenParts[3] else old(enPassant)
      ensures halfMoves == if GameFieldsRead(fenParts) >= 4 then ParseNumeral(fenParts[4]).value else old(halfMoves)
      ensures fullMoves == if GameFieldsRead(fenParts) >= 5 then ParseNumeral(fenParts[5]).value else old(fullMoves)
    {
      var colour := ParseColour(fenParts[1]);
      if colour.Err? {
        return Some(colour.error);
      }
      activeColour := colour.value;

      if |fenParts[2]| > 4 {
        return Some(CastlingField(fenParts[2]));
      }
      castling := CastlingFlags(fenParts[2]);

      if fenParts[3] == "-" {
        enPassant := "-";
      } else if ValidTextCoordinate(fenParts[3]).Some? {
        enPassant := fenParts[3];
      } else {
        return Some(EnPassant(fenParts[3]));
      }

      var half := ParseNumeral(fenParts[4]);
      if half.None? {
        return Some(HalfMoves(fenParts[4]));
      }
      halfMoves := half.value;

      var full := ParseNumeral(fenParts[5]);
      if full.None? {
        return Some(FullMoves(fenParts[5]));
      }
      fullMoves := full.value;
      return None;
    }

    /** loadFEN's first loop: every row becomes eight empty squares. */
    method ClearBoard()
      requires |board| == 8
      modifies this
      ensures board == EmptyGrid
      ensures pieces == old(pieces) && kings == old(kings) && created == old(created) && places == old(places)
      ensures pieceIdCounter == old(pieceIdCounter)
      ensures Status() == old(Status())
    {
      var row := 0;
      while row < 8
        invariant 0 <= row <= 8 && |board| == 8
        invariant forall r :: 0 <= r < row ==> board[r] == EmptyRow
        invariant pieces == old(pieces) && kings == old(kings) && created == old(created) && places == old(places)
        invariant pieceIdCounter == old(pieceIdCounter)
        invariant Status() == old(Status())
      {
        var cells: seq<Option<Piece>> := [];
        var file := 0;
        while file < 8
          invariant 0 <= file <= 8 && |cells| == file
          invariant forall f :: 0 <= f < file ==> cells[f].None?
        {
          cells := cells + [None];
          file := file + 1;
        }
        assert cells == EmptyRow;
        board := board[row := cells];
        row := row + 1;
      }
    }

    /** loadFEN's ranks on an emptied board: the placement field split at
        '/', which must give eight ranks, then parseFENRow for row 7 down
        to row 0, each reading the rank written for it. When every rank
        reads, the board holds BoardState.Load of the placement. */
    method LoadRanks(field: string) returns (err: Option<FenError>, ghost made: seq<Occupant>)
      requires Tabled(Snapshot()) && board == EmptyGrid && pieceIdCounter == 0
      modifies this
      ensures OccupantsValid(made) && Snapshot() == AddAll(old(Snapshot()), made).(counter := pieceIdCounter)
      ensures Status() == old(Status())
      ensures err.None? <==> ParsePlacement(field).Ok?
      ensures err.Some? ==> err.value == ParsePlacement(field).error
      ensures |Split(field, '/')| != 8 ==> Snapshot() == old(Snapshot())
      ensures err.None? ==> Snapshot() == Load(old(Snapshot()), ReadPlacement(field))
    {
      var boardRows := Split(field, '/');
      if |boardRows| != 8 {
        return Some(RankCount), [];
      }
      err, made := ReadRanks(field, boardRows);
    }

    /** The rank loop of loadFEN on the eight rank texts of a placement
        field, from row 7 down to row 0. */
    method ReadRanks(ghost field: string, boardRows: seq<string>) returns (err: Option<FenError>, ghost made: seq<Occupant>)
      requires boardRows == Split(field, '/') && |boardRows| == 8
      requires Tabled(Snapshot()) && board == EmptyGrid && pieceIdCounter == 0
      modifies this
      ensures OccupantsValid(made) && Snapshot() == AddAll(old(Snapshot()), made).(counter := pieceIdCounter)
      ensures Status() == old(Status())
      ensures err.None? <==> ParsePlacement(field).Ok?
      ensures err.Some? ==> err.value == ParsePlacement(field).error
      ensures err.None? ==> Snapshot() == Load(old(Snapshot()), ReadPlacement(field))
    {
      ghost var st0 := Snapshot();
      made := [];
      ghost var done: seq<seq<Option<char>>> := [];
      var row := 8;
      while row > 0
        invariant RanksRead(boardRows, row, done, made)
        invariant Snapshot() == AddAll(st0, made)
        invariant Status() == old(Status())
      {
        var e, more := ReadRankAt(boardRows, row, st0, done, made);
        if e.Some? {
          RanksReadFail(field, row, done, made);
          return e, made + more;
        }
        done := [ParseRank(row - 1, boardRows[8 - row]).value] + done;
        made := made + more;
        row := row - 1;
      }
      AllRanksRead(field, done, made);
      return None, made;
    }

    /** One pass of loadFEN's rank loop: parseFENRow for row `row - 1` on
        the rank text written for it, on a board holding the pieces of the
        ranks read before. */
    method ReadRankAt(ranks: seq<string>, row: int, ghost st0: Setup, ghost done: seq<seq<Option<char>>>, ghost made: seq<Occupant>)
      returns (err: Option<FenError>, ghost more: seq<Occupant>)
      requires RanksRead(ranks, row, done, made) && row > 0
      requires Tabled(st0) && Snapshot() == AddAll(st0, made)
      modifies this
      ensures Status() == old(Status())
      ensures OccupantsValid(made + more) && Snapshot() == AddAll(st0, made + more).(counter := pieceIdCounter)
      ensures err.Some? ==> ParseRank(row - 1, ranks[8 - row]) == Err(err.value)
      ensures err.None? ==>
                && ParseRank(row - 1, ranks[8 - row]).Ok?
                && RanksRead(ranks, row - 1, [ParseRank(row - 1, ranks[8 - row]).value] + done, made + more)
                && Snapshot() == AddAll(st0, made + more)
    {
      err, more := ParseFENRow(row - 1, ranks[8 - row]);
      AddAllAppend(st0, made, more);
      if err.None? {
        RanksReadStep(ranks, row, done, made, more);
      }
    }

    /** parseFENRow: the text of one rank, read character by character
        into row `row`. A digit advances the file by its value; white space
        makes the file NaN; any other character becomes a new piece with
        the next id, placed, registered and, for a king, made its colour's
        kings entry. An invalid letter throws at once, having used up an
        id; a rank that does not end exactly on file 8 throws at the end.
        On success the board holds the pieces of BoardState.AddAll for
        the rank's letters, in order. */
    method ParseFENRow(row: int, rowString: string) returns (err: Option<FenError>, ghost made: seq<Occupant>)
      requires Tabled(Snapshot()) && 0 <= row < 8
      modifies this
      ensures OccupantsValid(made) && Snapshot() == AddAll(old(Snapshot()), made).(counter := pieceIdCounter)
      ensures Status() == old(Status())
      ensures err.None? <==> ParseRank(row, rowString).Ok?
      ensures err.Some? ==> err.value == ParseRank(row, rowString).error
      ensures err.None? ==> made == RankPieces(row, rowString)
      ensures err.None? ==> Snapshot() == AddAll(old(Snapshot()), made)
    {
      ghost var st0 := Snapshot();
      ghost var scan := RankStart;
      ghost var items: seq<Occupant> := [];
      var file := 0;
      var nan := false;
      var i := 0;
      while i < |rowString|
        invariant Scanned(row, rowString, i, scan, file, nan, items)
        invariant Snapshot() == AddAll(st0, items)
        invariant Status() == old(Status())
      {
        var c := rowString[i];
        if IsDigit(c) {
          DigitStep(row, rowString, i, scan, file, nan, items);
          if !nan {
            file := file + DigitValue(c);
          }
        } else if IsJsSpace(c) {
          SpaceStep(row, rowString, i, scan, file, nan, items);
          nan := true;
        } else {
          PieceLetters(c, 0, 0);
          if !IsPieceLetter(c) {
            BadLetterStep(row, rowString, i, scan, file, nan, items);
            pieceIdCounter := pieceIdCounter + 1;
            return Some(PieceInvalid(c)), items;
          }
          LetterStep(row, rowString, i, scan, file, nan, items);
          if !nan {
            if file < 8 {
              var x := Occupant(Square(row, file), c);
              AddAllSnoc(st0, items, x);
              AddPieceAt(x);
              items := items + [x];
            }
            file := file + 1;
          }
        }
        scan := ScanStep(scan, c).value;
        i := i + 1;
      }
      RankEnd(row, rowString, scan, file, nan, items);
      if nan || file != 8 {
        return Some(RankFiles(row, rowString)), items;
      }
      return None, items;
    }

    /** The body of parseFENRow for a letter init accepts, met at
        `x.at`: the new ChessPiece, with the next id, takes the square and
        its registry entry, and a king becomes its colour's kings entry. */
    method AddPieceAt(x: Occupant)
      requires Tabled(Snapshot()) && OnBoard(x.at) && IsPieceLetter(x.letter)
      modifies this
      ensures Snapshot() == AddPiece(old(Snapshot()), x)
      ensures Status() == old(Status())
    {
      ghost var want := AddPiece(Snapshot(), x);
      PieceLetters(x.letter, pieceIdCounter, |created|);
      var piece := Init(x.letter, pieceIdCounter, |created|).value;
      assert want.created == created + [piece];
      pieceIdCounter := pieceIdCounter + 1;
      board := board[x.at.row := board[x.at.row][x.at.file := Some(piece)]];
      pieces := pieces[piece.id := Some(piece)];
      if piece.kind == King {
        kings := kings[piece.colour := piece];
      }
      created := created + [piece];
      places := places + [Some(x.at)];
      assert Snapshot() == Setup(board, pieces, kings, created, places, pieceIdCounter);
    }

    /** setPiece: see BoardState.Put; returns what stood on the square. */
    method SetPiece(piece: Option<Piece>, row: int, file: int) returns (prior: Option<Piece>)
      requires Valid() && ValidCoordinate(row, file)
      requires piece.Some? ==> IsObject(Snapshot(), piece.value)
      modifies this
      ensures Valid()
      ensures prior == old(board[row][file])
      ensures Snapshot() == Put(old(Snapshot()), piece, row, file)
      ensures Status() == old(Status())
    {
      ghost var st := Snapshot();
      PutKeepsSound(st, piece, row, file);
      prior := board[row][file];
      board := board[row := board[row][file := piece]];
      if piece.Some? {
        var p := piece.value;
        if places[p.serial].Some? {
          var sq := places[p.serial].value;
          board := board[sq.row := board[sq.row][sq.file := None]];
        }
        places := places[p.serial := Some(Square(row, file))];
        pieces := pieces[p.id := piece];
      }
      if prior.Some? {
        places := places[prior.value.serial := None];
        pieces := pieces[prior.value.id := None];
      }
    }

    /** pieceIsAttacked: the first piece of the other colour found to
        attack the square `piece` records. */
    method PieceIsAttacked(piece: Piece) returns (attacker: Option<Piece>)
      requires Valid() && IsObject(Snapshot(), piece)
      ensures attacker == Attacker(board, Place(Snapshot(), piece).row, Place(Snapshot(), piece).file, Opposite(piece.colour))
      ensures attacker.Some? ==> attacker.value.colour != piece.colour
    {
      var at := Place(Snapshot(), piece);
      attacker := SquareIsAttacked(board, at.row, at.file, Opposite(piece.colour));
    }

    /** doMove's checks, in the order it makes them, before anything
        moves: the two square names, the piece on the origin and its
        colour, its candidates, and the search of them for the
        destination. */
    method CheckMove(from: string, to: string) returns (j: Result<(Piece, Square, Square), MoveError>)
      requires IsGrid(board)
      ensures j == Judge(board, activeColour, from, to)
    {
      var f := ValidTextCoordinate(from);
      var t := ValidTextCoordinate(to);
      if f.None? || t.None? {
        return Err(InvalidCoordinates(from, to));
      }
      var piece := board[f.value.row][f.value.file];
      if piece.None? {
        return Err(NoPiece(from));
      }
      if piece.value.colour != activeColour {
        return Err(NotYourTurn(piece.value.colour));
      }
      var validMoves := Candidates(board, piece.value, f.value);
      if validMoves.Err? {
        return Err(OffBoard(validMoves.error));
      }
      var targetPiece := board[t.value.row][t.value.file];
      var isValid := SearchCandidates(validMoves.value, t.value, piece.value.kind == Pawn, targetPiece);
      if !isValid {
        return Err(InvalidMove);
      }
      return Ok((piece.value, f.value, t.value));
    }

    /** doMove: a move Judge refuses throws and changes nothing. An
        accepted move is made with setPiece; then the other colour's king
        is looked up (a board without one throws, the move made and nothing
        else), and the piece attacking it, if any, is reported as check.
        The full-move number grows after Black moves, the colour to move
        flips, the half-move clock grows unless the move captured or moved
        a pawn, and a king's move clears its colour's castling flags. */
    method DoMove(from: string, to: string) returns (r: Result<MoveOutcome, MoveError>)
      requires Valid()
      modifies this
      ensures Valid()
      ensures old(Agree(Snapshot())) ==> Agree(Snapshot())
      ensures (r, Snapshot(), Status()) == Play(old(Snapshot()), old(Status()), from, to)
    {
      var j := CheckMove(from, to);
      if j.Err? {
        return Err(j.error);
      }
      var (piece, f, t) := j.value;
      ghost var st := Snapshot();
      ghost var turn := Status();
      LegalMoveLands(board, activeColour, from, to);
      var targetPiece := SetPiece(Some(piece), t.row, t.file);
      if old(Agree(Snapshot())) {
        PutMoveAgrees(st, piece, f, t);
      }
      var opposite := Opposite(piece.colour);
      if opposite !in kings {
        return Err(KingMissing);
      }
      var checkingPiece := PieceIsAttacked(kings[opposite]);
      CountMove(piece, targetPiece);
      r := Ok(MoveOutcome(targetPiece, piece, checkingPiece));
      assert Status() == Played(turn, piece, targetPiece);
    }

    /** doMove's bookkeeping once the piece has moved: the full-move
        number grows after Black moves, the colour to move flips, the
        half-move clock grows unless the move captured or moved a pawn,
        and the castling flags follow CastlingAfter. */
    method CountMove(piece: Piece, targetPiece: Option<Piece>)
      modifies this
      ensures Snapshot() == old(Snapshot())
      ensures Status() == Played(old(Status()), piece, targetPiece)
    {
      if activeColour == Black {
        fullMoves := fullMoves + 1;
      }
      activeColour := Opposite(activeColour);
      if targetPiece.None? && piece.kind != Pawn {
        halfMoves := halfMoves + 1;
      }
      castling := CastlingAfter(castling, piece);
    }

    /** getFEN: the ranks from row 7 down to row 0, each writing its
        letters and the counts of empty squares between them, separated by
        '/'; then colour, castling, en passant and the two clocks. The text
        reads back as the board's own record. */
    method GetFEN() returns (fen: string)
      requires Valid()
      ensures fen == FenText(Record())
      ensures ParseFen(fen) == Ok(Record())
      ensures CanonicalFen(fen)
    {
      LettersArePlacement(Snapshot());
      fen := WritePlacement(board);
      ghost var fields := FenFields(Record());
      assert fen == fields[0];
      fen := fen + " " + ColourText(activeColour);

      var flags := WriteCastling(castling);
      assert flags == fields[2];
      fen := fen + " " + flags + " " + enPassant + " " + IntText(halfMoves) + " " + IntText(fullMoves);
      JoinSix(fields, ' ');
      LettersArePlacement(Snapshot());
      FenRoundTrip(Record());
      FenTextCanonical(Record());
    }
  }

  /** getFEN's loop over the castling keys K, Q, k, q, keeping those
      whose flag is set, and '-' when none is. */
  method WriteCastling(c: Castling) returns (flags: string)
    ensures flags == CastlingText(c)
  {
    var keys := "KQkq";
    flags := "";
    var i := 0;
    while i < |keys|
      invariant 0 <= i <= |keys|
      invariant flags == SetKeys(c, keys[..i])
    {
      assert keys[..i + 1][..i] == keys[..i];
      if Flag(c, keys[i]) {
        flags := flags + [keys[i]];
      }
      i := i + 1;
    }
    if |flags| == 0 {
      flags := "-";
    }
    assert keys[..4] == keys;
    SetKeysText(c);
  }

  /** getFEN's loop over the rows, from row 7 down to row 0, with the
      ranks separated by '/'. */
  method WritePlacement(g: Grid) returns (fen: string)
    requires IsGrid(g)
    ensures fen == PlacementText(Letters(g))
  {
    ghost var texts := RowTexts(Letters(g));
    RowTextsAt(Letters(g));
    fen := "";
    var row := |g|;
    while row > 0
      invariant 0 <= row <= 8
      invariant fen == RowsWritten(texts, 8 - row)
    {
      row := row - 1;
      fen := WriteRank(g, row, fen);
      if row > 0 {
        fen := fen + "/";
      }
      RowsWrittenStep(texts, 7 - row);
    }
    assert texts[..8] == texts;
  }

  /** The text getFEN's row loop has written after k of the rank texts:
      the k texts joined by '/', and a further '/' while ranks remain. */
  ghost function RowsWritten(texts: seq<string>, k: nat): string
    requires k <= |texts|
  {
    if k == 0 then "" else Join(texts[..k], '/') + (if k < |texts| then "/" else "")
  }

  lemma RowsWrittenStep(texts: seq<string>, k: nat)
    requires k < |texts|
    ensures RowsWritten(texts, k) + texts[k] + (if k + 1 < |texts| then "/" else "") == RowsWritten(texts, k + 1)
  {
    RowJoinStep(texts, k);
  }

  /** getFEN's loop over one rank, appending to `fen` the letters of its
      pieces and, for each run of empty squares, the run's length. */
  method WriteRank(g: Grid, row: int, fen: string) returns (out: string)
    requires IsGrid(g) && 0 <= row < 8
    ensures out == fen + EncodeRank(Letters(g)[row])
    ensures LettersValid(Letters(g)[row]) ==> CanonicalRank(out[|fen|..])
  {
    ghost var cells := Letters(g)[row];
    ghost var whole := fen + EncodeRank(cells);
    LettersOfRow(g, row);
    if LettersValid(cells) {
      EncodedRankCanonical(cells);
    }
    assert whole[|fen|..] == EncodeRank(cells);
    out := fen;
    var spaces: nat := 0;
    var file := 0;
    while file < |g[row]|
      invariant 0 <= file <= 8
      invariant out + EncodeCells(cells[file..], spaces) == whole
    {
      var piece := g[row][file];
      if piece.Some? {
        PieceStep(out, cells, file, spaces, whole);
        if spaces > 0 {
          out := out + NatText(spaces);
          spaces := 0;
        }
        out := out + [piece.value.letter];
      } else {
        BlankStep(out, cells, file, spaces, whole);
        spaces := spaces + 1;
      }
      file := file + 1;
    }
    if spaces > 0 {
      out := out + NatText(spaces);
    }
  }

  /** A piece in getFEN's rank loop: the pending count, if any, then the
      letter. */
  lemma PieceStep(out: string, cells: seq<Option<char>>, file: nat, spaces: nat, whole: string)
    requires file < |cells| && cells[file].Some?
    requires out + EncodeCells(cells[file..], spaces) == whole
    ensures (if spaces > 0 then out + NatText(spaces) else out) + [cells[file].value] + EncodeCells(cells[file + 1..], 0) == whole
  {
    EncodeStep(cells, file, spaces);
  }

  /** An empty square in getFEN's rank loop: one more in the count. */
  lemma BlankStep(out: string, cells: seq<Option<char>>, file: nat, spaces: nat, whole: string)
    requires file < |cells| && cells[file].None?
    requires out + EncodeCells(cells[file..], spaces) == whole
    ensures out + EncodeCells(cells[file + 1..], spaces + 1) == whole
  {
    EncodeStep(cells, file, spaces);
  }

  /** The row texts joined so far, one more each step. */
  lemma RowJoinStep(texts: seq<string>, k: nat)
    requires k < |texts|
    ensures Join(texts[..k + 1], '/') == if k == 0 then texts[0] else Join(texts[..k], '/') + "/" + texts[k]
  {
    if k > 0 {
      assert texts[..k + 1] == texts[..k] + [texts[k]];
      JoinSnoc(texts[..k], texts[k], '/');
    }
  }

  lemma JoinSix(parts: seq<string>, sep: char)
    requires |parts| == 6
    ensures Join(parts, sep) == parts[0] + [sep] + parts[1] + [sep] + parts[2] + [sep] + parts[3] + [sep] + parts[4] + [sep] + parts[5]
  {
    assert Join(parts[5..], sep) == parts[5];
    assert Join(parts[4..], sep) == parts[4] + [sep] + parts[5] by { assert parts[4..][1..] == parts[5..]; }
    assert Join(parts[3..], sep) == parts[3] + [sep] + Join(parts[4..], sep) by { assert parts[3..][1..] == parts[4..]; }
    assert Join(parts[2..], sep) == parts[2] + [sep] + Join(parts[3..], sep) by { assert parts[2..][1..] == parts[3..]; }
    assert Join(parts[1..], sep) == parts[1] + [sep] + Join(parts[2..], sep) by { assert parts[1..][1..] == parts[2..]; }
  }

  /** Row `row` of the letters of g, square by square. */
  lemma LettersOfRow(g: Grid, row: int)
    requires IsGrid(g) && 0 <= row < 8
    ensures |Letters(g)[row]| == 8
    ensures forall f :: 0 <= f < 8 ==> Letters(g)[row][f] == if g[row][f].Some? then Some(g[row][f].value.letter) else None
  {
  }

  /** One square of getFEN's rank loop: an empty square adds to the count
      of blanks; a piece writes the count, if any, then its letter. */
  lemma EncodeStep(cells: seq<Option<char>>, file: nat, spaces: nat)
    requires file < |cells|
    ensures EncodeCells(cells[file..], spaces) ==
      if cells[file].None? then EncodeCells(cells[file + 1..], spaces + 1)
      else (if spaces > 0 then NatText(spaces) else "") + [cells[file].value] + EncodeCells(cells[file + 1..], 0)
  {
    assert cells[file..][1..] == cells[file + 1..];
  }
}
