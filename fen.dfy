/** Forsyth-Edwards Notation as js/board.js reads it (loadFEN,
    parseFENRow) and writes it (getFEN), stated on values: a position
    record, the parse of a text into a record or an error, and the text
    of a record. The board's methods are proved to follow these. */
module Fen {
  import opened Wrappers
  import opened Text
  import opened Coords
  import opened Pieces
  import opened Constants

  /** The castling flags, named after their FEN letters K, Q, k and q. */
  datatype Castling = Castling(whiteKing: bool, whiteQueen: bool, blackKing: bool, blackQueen: bool)

  const NoCastling: Castling := Castling(false, false, false, false)

  /** What loadFEN throws, one value per message. */
  datatype FenError =
    | FieldCount                       // not six space-separated fields
    | RankCount                        // the placement has not eight ranks
    | PieceInvalid(letter: char)       // a rank holds a letter outside PIECES
    | RankFiles(row: int, text: string) // a rank does not fill eight files
    | ActiveColour(text: string)
    | CastlingField(text: string)
    | EnPassant(text: string)
    | HalfMoves(text: string)
    | FullMoves(text: string)

  /** Piece letters by row (0 = rank 1) and file (0 = file a). */
  type Placement = seq<seq<Option<char>>>

  predicate LettersValid(cells: seq<Option<char>>) {
    forall i :: 0 <= i < |cells| && cells[i].Some? ==> IsPieceLetter(cells[i].value)
  }

  predicate IsPlacement(p: Placement) {
    |p| == 8 && forall r :: 0 <= r < 8 ==> |p[r]| == 8 && LettersValid(p[r])
  }

  /** Everything a FEN text sets: the placement, then the five fields. */
  datatype FenRecord = FenRecord(placement: Placement, active: Colour, castling: Castling,
                                 enPassant: string, halfMoves: int, fullMoves: int)

  predicate WellFormedRecord(rec: FenRecord) {
    && IsPlacement(rec.placement)
    && (rec.enPassant == "-" || ValidTextCoordinate(rec.enPassant).Some?)
  }

  // ---------------------------------------------------------------- ranks

  /** The state of parseFENRow's scan: the squares filled so far (their
      number is the file counter) and whether the counter has become NaN. */
  datatype RankScan = RankScan(cells: seq<Option<char>>, blank: bool)

  const RankStart: RankScan := RankScan([], false)

  function Blanks(n: nat): (cells: seq<Option<char>>)
    ensures |cells| == n && forall i :: 0 <= i < n ==> cells[i].None?
  {
    if n == 0 then [] else [None] + Blanks(n - 1)
  }

  /** One character of parseFENRow. isNaN is false for a digit, which
      advances the file by its value, and for a white-space character,
      which parseInt then reads as NaN, so the file counter is NaN from
      there on; every other character goes to the ChessPiece constructor,
      which refuses a letter outside PIECES. Once the counter is NaN no
      further square is filled. */
  function ScanStep(st: RankScan, c: char): Result<RankScan, char> {
    if IsDigit(c) then Ok(if st.blank then st else RankScan(st.cells + Blanks(DigitValue(c)), false))
    else if IsJsSpace(c) then Ok(RankScan(st.cells, true))
    else if IsPieceLetter(c) then Ok(if st.blank then st else RankScan(st.cells + [Some(c)], false))
    else Err(c)
  }

  /** The scan of a whole text, character by character from the left. */
  function ScanFrom(st: RankScan, s: string): Result<RankScan, char>
    decreases |s|
  {
    if s == [] then Ok(st)
    else match ScanStep(st, s[0])
      case Err(c) => Err(c)
      case Ok(next) => ScanFrom(next, s[1..])
  }

  /** parseFENRow for row `row`: an invalid letter fails at once; at the
      end the file counter must be exactly 8. */
  function ParseRank(row: int, s: string): Result<seq<Option<char>>, FenError> {
    match ScanFrom(RankStart, s)
    case Err(c) => Err(PieceInvalid(c))
    case Ok(st) => if st.blank || |st.cells| != 8 then Err(RankFiles(row, s)) else Ok(st.cells)
  }

  /** Scanning a concatenation scans the second part from where the first
      one stopped. */
  lemma {:induction false} ScanAppend(st: RankScan, a: string, b: string)
    ensures ScanFrom(st, a + b) == match ScanFrom(st, a) { case Err(c) => Err(c) case Ok(mid) => ScanFrom(mid, b) }
    decreases |a|
  {
    if a != [] {
      assert (a + b)[0] == a[0] && (a + b)[1..] == a[1..] + b;
      match ScanStep(st, a[0]) {
        case Err(c) =>
        case Ok(next) => ScanAppend(next, a[1..], b);
      }
    } else {
      assert a + b == b;
    }
  }

  /** The step the board's row loop takes: one more character. */
  lemma ScanSnoc(st: RankScan, s: string, c: char)
    ensures ScanFrom(st, s + [c]) == match ScanFrom(st, s) { case Err(e) => Err(e) case Ok(mid) => ScanStep(mid, c) }
  {
    ScanAppend(st, s, [c]);
    if ScanFrom(st, s).Ok? {
      var mid := ScanFrom(st, s).value;
      assert [c][0] == c && [c][1..] == [];
      assert ScanFrom(mid, [c]) == ScanStep(mid, c);
    }
  }

  lemma {:induction false} ScanKeepsLetters(st: RankScan, s: string)
    requires LettersValid(st.cells)
    ensures ScanFrom(st, s).Ok? ==> LettersValid(ScanFrom(st, s).value.cells)
    decreases |s|
  {
    if s != [] {
      match ScanStep(st, s[0]) {
        case Err(c) =>
        case Ok(next) =>
          assert LettersValid(next.cells);
          ScanKeepsLetters(next, s[1..]);
      }
    }
  }

  /** A parsed rank has eight squares, each empty or a letter init accepts. */
  lemma ParsedRankIsRow(row: int, s: string)
    ensures ParseRank(row, s).Ok? ==> |ParseRank(row, s).value| == 8 && LettersValid(ParseRank(row, s).value)
  {
    ScanKeepsLetters(RankStart, s);
  }

  /** getFEN's inner loop over one row with the count of empty squares
      seen and not yet written: a piece letter first writes that count. */
  function EncodeCells(cells: seq<Option<char>>, spaces: nat): string
    decreases |cells|
  {
    if cells == [] then (if spaces > 0 then NatText(spaces) else "")
    else match cells[0]
      case None => EncodeCells(cells[1..], spaces + 1)
      case Some(c) => (if spaces > 0 then NatText(spaces) else "") + [c] + EncodeCells(cells[1..], 0)
  }

  function EncodeRank(cells: seq<Option<char>>): string {
    EncodeCells(cells, 0)
  }

  lemma SingleDigitText(n: nat)
    requires 1 <= n <= 9
    ensures NatText(n) == [DigitChar(n)]
  {
  }

  /** Scanning the count of owed empty squares and then a piece letter. */
  lemma ScanLead(st: RankScan, spaces: nat, c: char)
    requires !st.blank && IsPieceLetter(c) && spaces <= 9
    ensures ScanFrom(st, (if spaces > 0 then NatText(spaces) else "") + [c])
            == Ok(RankScan(st.cells + Blanks(spaces) + [Some(c)], false))
  {
    PieceLetterIsNoSeparator(c);
    if spaces > 0 {
      ScanDigitLetter(st, spaces, c);
    } else {
      ScanLetter(st, c);
      assert st.cells + Blanks(0) + [Some(c)] == st.cells + [Some(c)];
    }
  }

  lemma ScanLetter(st: RankScan, c: char)
    requires !st.blank && IsPieceLetter(c)
    ensures ScanFrom(st, [c]) == Ok(RankScan(st.cells + [Some(c)], false))
  {
    PieceLetterIsNoSeparator(c);
    assert [c][1..] == [];
  }

  lemma ScanDigitLetter(st: RankScan, spaces: nat, c: char)
    requires !st.blank && IsPieceLetter(c) && 1 <= spaces <= 9
    ensures ScanFrom(st, NatText(spaces) + [c]) == Ok(RankScan(st.cells + Blanks(spaces) + [Some(c)], false))
  {
    SingleDigitText(spaces);
    var d := DigitChar(spaces);
    var after := RankScan(st.cells + Blanks(spaces), false);
    assert ScanStep(st, d) == Ok(after);
    assert NatText(spaces) + [c] == [d, c];
    assert [d, c][1..] == [c];
    ScanLetter(after, c);
  }

  lemma LettersValidTail(cells: seq<Option<char>>)
    requires cells != [] && LettersValid(cells)
    ensures LettersValid(cells[1..])
  {
    forall i | 0 <= i < |cells[1..]| && cells[1..][i].Some? ensures IsPieceLetter(cells[1..][i].value) {
      assert cells[1..][i] == cells[i + 1];
    }
  }

  /** Scanning an encoding from a state that is not NaN appends the empty
      squares still owed and then the cells themselves. */
  lemma {:induction false} EncodeThenScan(st: RankScan, cells: seq<Option<char>>, spaces: nat)
    requires !st.blank && LettersValid(cells) && spaces + |cells| <= 9
    ensures ScanFrom(st, EncodeCells(cells, spaces)) == Ok(RankScan(st.cells + Blanks(spaces) + cells, false))
    decreases |cells|, 1
  {
    if cells == [] {
      if spaces > 0 {
        SingleDigitText(spaces);
        var d := DigitChar(spaces);
        assert [d][1..] == [];
        assert EncodeCells(cells, spaces) == [d];
        var next := RankScan(st.cells + Blanks(spaces), false);
        assert ScanStep(st, d) == Ok(next);
        assert ScanFrom(next, []) == Ok(next);
        assert ScanFrom(st, [d]) == Ok(next);
      } else {
        assert EncodeCells(cells, spaces) == [];
        assert Blanks(0) == [];
        assert st.cells + Blanks(spaces) + cells == st.cells;
        assert RankScan(st.cells, false) == st;
      }
      assert st.cells + Blanks(spaces) + cells == st.cells + Blanks(spaces);
    } else if cells[0].None? {
      EncodeThenScanBlank(st, cells, spaces);
    } else {
      EncodeThenScanPiece(st, cells, spaces);
    }
  }

  lemma {:induction false} EncodeThenScanBlank(st: RankScan, cells: seq<Option<char>>, spaces: nat)
    requires !st.blank && LettersValid(cells) && spaces + |cells| <= 9
    requires cells != [] && cells[0].None?
    ensures ScanFrom(st, EncodeCells(cells, spaces)) == Ok(RankScan(st.cells + Blanks(spaces) + cells, false))
    decreases |cells|, 0
  {
    LettersValidTail(cells);
    EncodeBlank(cells, spaces);
    EncodeThenScan(st, cells[1..], spaces + 1);
    CellsAfterBlank(st.cells, spaces, cells);
  }

  /** getFEN owes one more empty square and writes nothing for it yet. */
  lemma EncodeBlank(cells: seq<Option<char>>, spaces: nat)
    requires cells != [] && cells[0].None?
    ensures EncodeCells(cells, spaces) == EncodeCells(cells[1..], spaces + 1)
  {
  }

  lemma CellsAfterBlank(front: seq<Option<char>>, spaces: nat, cells: seq<Option<char>>)
    requires cells != [] && cells[0].None?
    ensures front + Blanks(spaces + 1) + cells[1..] == front + Blanks(spaces) + cells
  {
    BlanksSnoc(spaces);
    assert cells == [None] + cells[1..];
  }

  lemma {:induction false} BlanksSnoc(n: nat)
    ensures Blanks(n + 1) == Blanks(n) + [None]
  {
    if n > 0 {
      BlanksSnoc(n - 1);
    }
  }

  lemma {:induction false} EncodeThenScanPiece(st: RankScan, cells: seq<Option<char>>, spaces: nat)
    requires !st.blank && LettersValid(cells) && spaces + |cells| <= 9
    requires cells != [] && cells[0].Some?
    ensures ScanFrom(st, EncodeCells(cells, spaces)) == Ok(RankScan(st.cells + Blanks(spaces) + cells, false))
    decreases |cells|, 0
  {
    LettersValidTail(cells);
    var c := cells[0].value;
    var lead := (if spaces > 0 then NatText(spaces) else "") + [c];
    var mid := RankScan(st.cells + Blanks(spaces) + [Some(c)], false);
    assert IsPieceLetter(c);
    EncodePiece(cells, spaces);
    ScanLead(st, spaces, c);
    ScanAppend(st, lead, EncodeCells(cells[1..], 0));
    EncodeThenScan(mid, cells[1..], 0);
    CellsAfterPiece(st.cells + Blanks(spaces), cells);
  }

  /** getFEN writes a piece as the owed count, then its letter. */
  lemma EncodePiece(cells: seq<Option<char>>, spaces: nat)
    requires cells != [] && cells[0].Some?
    ensures EncodeCells(cells, spaces)
            == (if spaces > 0 then NatText(spaces) else "") + [cells[0].value] + EncodeCells(cells[1..], 0)
  {
  }

  lemma CellsAfterPiece(front: seq<Option<char>>, cells: seq<Option<char>>)
    requires cells != []
    ensures front + [cells[0]] + Blanks(0) + cells[1..] == front + cells
  {
    assert Blanks(0) == [];
    assert cells == [cells[0]] + cells[1..];
  }

  /** A row written by getFEN reads back as the same row. */
  lemma RankRoundTrip(row: int, cells: seq<Option<char>>)
    requires |cells| == 8 && LettersValid(cells)
    ensures ParseRank(row, EncodeRank(cells)) == Ok(cells)
  {
    EncodeThenScan(RankStart, cells, 0);
    assert RankStart.cells + Blanks(0) + cells == cells;
  }

  /** An encoding holds nothing but digits and the row's letters. */
  lemma {:induction false} EncodeAvoids(cells: seq<Option<char>>, spaces: nat, c: char)
    requires LettersValid(cells) && !IsDigit(c) && !IsPieceLetter(c)
    ensures c !in EncodeCells(cells, spaces)
    decreases |cells|
  {
    if spaces > 0 {
      NatTextShape(spaces);
    }
    if cells != [] {
      assert LettersValid(cells[1..]) by {
        forall i | 0 <= i < |cells[1..]| && cells[1..][i].Some? ensures IsPieceLetter(cells[1..][i].value) {
          assert cells[1..][i] == cells[i + 1];
        }
      }
      match cells[0] {
        case None => EncodeAvoids(cells[1..], spaces + 1, c);
        case Some(x) =>
          assert IsPieceLetter(x) by { assert cells[0].Some?; }
          EncodeAvoids(cells[1..], 0, c);
      }
    }
  }

  /** A rank text as getFEN writes it: no '0' and never two digits side by
      side. */
  predicate CanonicalRank(t: string) {
    && (forall i :: 0 <= i < |t| ==> t[i] != '0')
    && (forall i, j :: 0 <= i < |t| && 0 <= j < |t| && j == i + 1 ==> !(IsDigit(t[i]) && IsDigit(t[j])))
  }

  predicate RankChars(t: string) {
    forall i :: 0 <= i < |t| ==> IsDigit(t[i]) || IsPieceLetter(t[i])
  }

  /** The squares one digit or piece letter of a rank stands for. */
  function Squares(c: char): seq<Option<char>>
    requires IsDigit(c) || IsPieceLetter(c)
  {
    if IsDigit(c) then Blanks(DigitValue(c)) else [Some(c)]
  }

  /** The squares a text of digits and letters stands for. */
  function Expand(t: string): seq<Option<char>>
    requires RankChars(t)
  {
    if t == [] then [] else Squares(t[0]) + Expand(t[1..])
  }

  lemma RankCharsCons(t: string)
    requires t != [] && (IsDigit(t[0]) || IsPieceLetter(t[0])) && RankChars(t[1..])
    ensures RankChars(t)
  {
    forall i | 0 <= i < |t| ensures IsDigit(t[i]) || IsPieceLetter(t[i]) {
      if i > 0 {
        assert t[i] == t[1..][i - 1];
      }
    }
  }

  /** One step of the scan that leaves the counter a number read a digit
      or a piece letter and appended its squares. */
  lemma CleanStep(st: RankScan, c: char)
    requires !st.blank && ScanStep(st, c).Ok? && !ScanStep(st, c).value.blank
    ensures IsDigit(c) || IsPieceLetter(c)
    ensures ScanStep(st, c).value == RankScan(st.cells + Squares(c), false)
  {
    PieceLetterIsNoSeparatorIfLetter(c);
  }

  lemma {:induction false} BlankStays(st: RankScan, t: string)
    requires st.blank
    ensures ScanFrom(st, t).Ok? ==> ScanFrom(st, t).value.blank
    decreases |t|
  {
    if t != [] {
      match ScanStep(st, t[0]) {
        case Err(c) =>
        case Ok(next) => BlankStays(next, t[1..]);
      }
    }
  }

  /** A scan that neither fails nor goes NaN read only digits and piece
      letters, and appended their squares. */
  lemma {:induction false} CleanScan(st: RankScan, t: string)
    requires !st.blank
    requires ScanFrom(st, t).Ok? && !ScanFrom(st, t).value.blank
    ensures RankChars(t) && ScanFrom(st, t).value.cells == st.cells + Expand(t)
    decreases |t|
  {
    if t != [] {
      var c := t[0];
      var next := ScanStep(st, c).value;
      assert ScanFrom(st, t) == ScanFrom(next, t[1..]);
      if next.blank {
        BlankStays(next, t[1..]);
      } else {
        CleanStep(st, c);
        CleanScan(next, t[1..]);
        RankCharsCons(t);
        assert st.cells + Squares(c) + Expand(t[1..]) == st.cells + Expand(t);
      }
    }
  }

  lemma PieceLetterIsNoSeparatorIfLetter(c: char)
    ensures IsPieceLetter(c) ==> !IsDigit(c) && !IsJsSpace(c)
  {
    if IsPieceLetter(c) {
      PieceLetterIsNoSeparator(c);
    }
  }

  lemma {:induction false} EncodeBlanks(k: nat, xs: seq<Option<char>>, n: nat)
    ensures EncodeCells(Blanks(k) + xs, n) == EncodeCells(xs, n + k)
  {
    if k > 0 {
      var ys := Blanks(k - 1) + xs;
      assert Blanks(k) + xs == [None] + ys;
      assert ([None] + ys)[0] == None && ([None] + ys)[1..] == ys;
      EncodeBlanks(k - 1, xs, n + 1);
    } else {
      assert Blanks(0) + xs == xs;
    }
  }

  lemma CanonicalTail(t: string)
    requires t != [] && RankChars(t) && CanonicalRank(t)
    ensures RankChars(t[1..]) && CanonicalRank(t[1..])
  {
    assert forall i :: 0 <= i < |t| - 1 ==> t[1..][i] == t[i + 1];
  }

  /** A canonical rank text is what getFEN writes for the squares it
      stands for. */
  lemma {:induction false} ExpandThenEncode(t: string)
    requires RankChars(t) && CanonicalRank(t)
    ensures EncodeRank(Expand(t)) == t
    decreases |t|, 1
  {
    if t != [] {
      if IsDigit(t[0]) {
        ExpandThenEncodeDigit(t);
      } else {
        CanonicalTail(t);
        ExpandLetter(t);
        ExpandThenEncode(t[1..]);
        EncodeLeadLetter(Expand(t), t[0], t[1..], 0);
      }
    }
  }

  lemma DigitThenText(d: nat, u: string)
    requires 1 <= d <= 9 && u != []
    ensures NatText(d) + [u[0]] + u[1..] == [DigitChar(d)] + u
  {
    SingleDigitText(d);
    assert u == [u[0]] + u[1..];
  }

  /** A row starting with a piece that getFEN writes the rest of as
      `rest` is written as the owed count, the letter and `rest`. */
  lemma EncodeLeadLetter(cells: seq<Option<char>>, x: char, rest: string, spaces: nat)
    requires cells != [] && cells[0] == Some(x) && EncodeCells(cells[1..], 0) == rest
    ensures EncodeCells(cells, spaces) == (if spaces > 0 then NatText(spaces) else "") + [x] + rest
    ensures spaces == 0 ==> EncodeCells(cells, spaces) == [x] + rest
  {
    EncodePiece(cells, spaces);
  }

  /** A text starting with a piece letter stands for that piece and then
      the squares of the rest. */
  lemma ExpandLetter(t: string)
    requires t != [] && RankChars(t) && !IsDigit(t[0])
    ensures RankChars(t[1..])
    ensures Expand(t) != [] && Expand(t)[0] == Some(t[0]) && Expand(t)[1..] == Expand(t[1..])
  {
  }

  lemma {:induction false} ExpandThenEncodeDigit(t: string)
    requires RankChars(t) && CanonicalRank(t) && t != [] && IsDigit(t[0])
    ensures EncodeRank(Expand(t)) == t
    decreases |t|, 0
  {
    var c := t[0];
    var d := DigitValue(c);
    CanonicalTail(t);
    ExpandDigit(t);
    EncodeBlanks(d, Expand(t[1..]), 0);
    LetterAfterDigit(t);
    EncodeAfterDigit(t[1..], d);
    assert t == [c] + t[1..];
  }

  /** A text starting with a digit stands for that many empty squares and
      then the squares of the rest; the digit is not '0'. */
  lemma ExpandDigit(t: string)
    requires t != [] && RankChars(t) && CanonicalRank(t) && IsDigit(t[0])
    ensures RankChars(t[1..]) && 1 <= DigitValue(t[0]) <= 9 && DigitChar(DigitValue(t[0])) == t[0]
    ensures Expand(t) == Blanks(DigitValue(t[0])) + Expand(t[1..])
  {
    assert t[0] != '0';
  }

  lemma LetterAfterDigit(t: string)
    requires t != [] && CanonicalRank(t) && IsDigit(t[0])
    ensures t[1..] != [] ==> !IsDigit(t[1..][0])
  {
    if |t| > 1 {
      assert !(IsDigit(t[0]) && IsDigit(t[1]));
    }
  }

  /** What follows a digit in a canonical rank: nothing, or a letter
      after which the encoding carries on from an empty count. */
  lemma {:induction false} EncodeAfterDigit(u: string, d: nat)
    requires 1 <= d <= 9 && RankChars(u) && CanonicalRank(u)
    requires u != [] ==> !IsDigit(u[0])
    ensures EncodeCells(Expand(u), d) == [DigitChar(d)] + u
    decreases |u|, 2
  {
    SingleDigitText(d);
    if u == [] {
      assert [DigitChar(d)] + u == [DigitChar(d)];
    } else {
      CanonicalTail(u);
      ExpandLetter(u);
      ExpandThenEncode(u[1..]);
      EncodeLeadLetter(Expand(u), u[0], u[1..], d);
      DigitThenText(d, u);
    }
  }

  /** A canonical rank reads as squares that getFEN writes back as the
      same text. */
  lemma CanonicalRankReprints(row: int, t: string)
    requires ParseRank(row, t).Ok? && CanonicalRank(t)
    ensures EncodeRank(ParseRank(row, t).value) == t
  {
    CleanScan(RankStart, t);
    assert RankStart.cells + Expand(t) == Expand(t);
    ExpandThenEncode(t);
  }

  // ------------------------------------------------------------ placement

  /** The outcome of parseFENRow for every rank of the text, the k-th
      rank filling row `|ranks| - 1 - k` (loadFEN reverses the ranks). */
  function RankResults(ranks: seq<string>): (results: seq<Result<seq<Option<char>>, FenError>>)
    ensures |results| == |ranks|
    ensures forall k :: 0 <= k < |ranks| ==> results[k] == ParseRank(|ranks| - 1 - k, ranks[k])
  {
    seq(|ranks|, k requires 0 <= k < |ranks| => ParseRank(|ranks| - 1 - k, ranks[k]))
  }

  /** loadFEN's rank loop over the outcomes from the k-th on, the k-th
      first; the rows come out indexed by row, so the last rank of the text
      is row 0. The first rank that fails decides the error. */
  function CollectRows(results: seq<Result<seq<Option<char>>, FenError>>, k: nat): Result<Placement, FenError>
    requires k <= |results|
    decreases |results| - k
  {
    if k == |results| then Ok([])
    else match results[k]
      case Err(e) => Err(e)
      case Ok(cells) =>
        match CollectRows(results, k + 1)
        case Err(e) => Err(e)
        case Ok(rows) => Ok(rows + [cells])
  }

  /** The placement field: eight ranks separated by '/'. */
  function ParsePlacement(field: string): Result<Placement, FenError> {
    var ranks := Split(field, '/');
    if |ranks| != 8 then Err(RankCount) else CollectRows(RankResults(ranks), 0)
  }

  lemma {:induction false} RanksAllRead(results: seq<Result<seq<Option<char>>, FenError>>, k: nat)
    requires k <= |results|
    requires forall j :: k <= j < |results| ==> results[j].Ok?
    ensures CollectRows(results, k).Ok?
    ensures |CollectRows(results, k).value| == |results| - k
    ensures forall r :: 0 <= r < |results| - k ==>
              CollectRows(results, k).value[r] == results[|results| - 1 - r].value
    decreases |results| - k
  {
    if k < |results| {
      RanksAllRead(results, k + 1);
    }
  }

  lemma {:induction false} RanksFirstError(results: seq<Result<seq<Option<char>>, FenError>>, k: nat, bad: nat)
    requires k <= bad < |results|
    requires forall j :: k <= j < bad ==> results[j].Ok?
    requires results[bad].Err?
    ensures CollectRows(results, k) == Err(results[bad].error)
    decreases bad - k
  {
    if k < bad {
      RanksFirstError(results, k + 1, bad);
    }
  }

  /** A placement that reads has every rank reading. */
  lemma {:induction false} RanksReadAll(results: seq<Result<seq<Option<char>>, FenError>>, k: nat)
    requires k <= |results|
    requires CollectRows(results, k).Ok?
    ensures forall j :: k <= j < |results| ==> results[j].Ok?
    decreases |results| - k
  {
    if k < |results| {
      RanksReadAll(results, k + 1);
    }
  }

  /** A placement field that reads has eight rank texts, and row r of the
      placement is what rank text 7 - r reads as: the first text is row 7
      (rank 8) and the last is row 0 (rank 1). */
  lemma PlacementRows(field: string)
    requires ParsePlacement(field).Ok?
    ensures |Split(field, '/')| == 8 && |ParsePlacement(field).value| == 8
    ensures forall r :: 0 <= r < 8 ==> ParseRank(r, Split(field, '/')[7 - r]) == Ok(ParsePlacement(field).value[r])
  {
    var results := RankResults(Split(field, '/'));
    RanksReadAll(results, 0);
    RanksAllRead(results, 0);
  }

  /** The rank texts of a placement, the top row (row 7) first. */
  function RowTexts(p: Placement): (texts: seq<string>)
    ensures |texts| == |p|
  {
    if |p| == 0 then [] else [EncodeRank(p[|p| - 1])] + RowTexts(p[..|p| - 1])
  }

  lemma {:induction false} RowTextsAt(p: Placement)
    ensures forall j :: 0 <= j < |p| ==> RowTexts(p)[j] == EncodeRank(p[|p| - 1 - j])
  {
    if |p| > 0 {
      RowTextsAt(p[..|p| - 1]);
    }
  }

  /** getFEN's placement: the rows from 7 down to 0 joined by '/'. */
  function PlacementText(p: Placement): string {
    Join(RowTexts(p), '/')
  }

  lemma PlacementTextAvoids(p: Placement, c: char)
    requires IsPlacement(p) && !IsDigit(c) && !IsPieceLetter(c) && c != '/'
    ensures c !in PlacementText(p)
  {
    RowTextsAvoid(p, c);
    JoinAvoids(RowTexts(p), '/', c);
  }

  /** No rank text holds a character that is neither a digit nor a piece letter. */
  lemma {:induction false} RowTextsAvoid(p: Placement, c: char)
    requires !IsDigit(c) && !IsPieceLetter(c)
    requires forall r :: 0 <= r < |p| ==> LettersValid(p[r])
    ensures forall j :: 0 <= j < |p| ==> c !in RowTexts(p)[j]
    decreases |p|
  {
    if |p| > 0 {
      var front := p[..|p| - 1];
      assert forall r :: 0 <= r < |front| ==> front[r] == p[r];
      RowTextsAvoid(front, c);
      EncodeAvoids(p[|p| - 1], 0, c);
      assert RowTexts(p) == [EncodeRank(p[|p| - 1])] + RowTexts(front);
    }
  }

  lemma PlacementTextSplits(p: Placement)
    requires IsPlacement(p)
    ensures Split(PlacementText(p), '/') == RowTexts(p)
  {
    PieceLetterIsNoSeparatorIfSlash();
    RowTextsAvoid(p, '/');
    SplitJoin(RowTexts(p), '/');
  }

  lemma RowTextsRead(p: Placement)
    requires IsPlacement(p)
    ensures forall j :: 0 <= j < 8 ==> RankResults(RowTexts(p))[j] == Ok(p[7 - j])
  {
    var texts := RowTexts(p);
    RowTextsAt(p);
    forall j | 0 <= j < 8 ensures RankResults(texts)[j] == Ok(p[7 - j]) {
      RankRoundTrip(7 - j, p[7 - j]);
    }
  }

  lemma CollectAllRows(results: seq<Result<seq<Option<char>>, FenError>>, p: Placement)
    requires |results| == |p|
    requires forall j :: 0 <= j < |p| ==> results[j] == Ok(p[|p| - 1 - j])
    ensures CollectRows(results, 0) == Ok(p)
  {
    RanksAllRead(results, 0);
    var q := CollectRows(results, 0).value;
    forall r | 0 <= r < |p| ensures q[r] == p[r] {
      var j := |p| - 1 - r;
      assert results[j] == Ok(p[|p| - 1 - j]);
    }
    assert q == p;
  }

  /** A placement written by getFEN reads back as itself. */
  lemma PlacementRoundTrip(p: Placement)
    requires IsPlacement(p)
    ensures ParsePlacement(PlacementText(p)) == Ok(p)
  {
    PlacementTextSplits(p);
    RowTextsRead(p);
    CollectAllRows(RankResults(RowTexts(p)), p);
  }

  lemma PieceLetterIsNoSeparatorIfSlash()
    ensures !IsPieceLetter('/') && !IsPieceLetter(' ')
  {
    PieceLetters('/', 0, 0);
    PieceLetters(' ', 0, 0);
  }

  // --------------------------------------------------------------- fields

  /** The active colour, lower-cased, must be 'w' or 'b'. */
  function ParseColour(t: string): Result<Colour, FenError> {
    var lower := LowerString(t);
    if lower == "w" then Ok(White) else if lower == "b" then Ok(Black) else Err(ActiveColour(lower))
  }

  /** The flags a castling field names: every letter K, Q, k or q in it;
      other characters are passed over. */
  function CastlingOf(t: string): Castling {
    Castling('K' in t, 'Q' in t, 'k' in t, 'q' in t)
  }

  /** The castling field: at most four characters; '-' clears every flag. */
  function ParseCastling(t: string): Result<Castling, FenError> {
    if |t| > 4 then Err(CastlingField(t))
    else if t == "-" then Ok(NoCastling)
    else Ok(CastlingOf(t))
  }

  /** The en-passant field is kept as text: '-' or a square name. */
  function ParseEnPassant(t: string): Result<string, FenError> {
    if t == "-" then Ok("-")
    else if ValidTextCoordinate(t).Some? then Ok(t)
    else Err(EnPassant(t))
  }

  /** loadFEN: six fields, read in order; the first that fails decides
      the error. */
  function ParseFen(fen: string): Result<FenRecord, FenError> {
    var parts := Split(fen, ' ');
    if |parts| != 6 then Err(FieldCount)
    else match ParsePlacement(parts[0])
      case Err(e) => Err(e)
      case Ok(placement) =>
        match ParseColour(parts[1])
        case Err(e) => Err(e)
        case Ok(active) =>
          match ParseCastling(parts[2])
          case Err(e) => Err(e)
          case Ok(castling) =>
            match ParseEnPassant(parts[3])
            case Err(e) => Err(e)
            case Ok(ep) =>
              match ParseNumeral(parts[4])
              case None => Err(HalfMoves(parts[4]))
              case Some(half) =>
                match ParseNumeral(parts[5])
                case None => Err(FullMoves(parts[5]))
                case Some(full) => Ok(FenRecord(placement, active, castling, ep, half, full))
  }

  /** The castling flags as getFEN writes them: the set letters in the
      order K, Q, k, q, or '-' when none is set. */
  function CastlingText(c: Castling): string {
    var t := (if c.whiteKing then "K" else "") + (if c.whiteQueen then "Q" else "")
             + (if c.blackKing then "k" else "") + (if c.blackQueen then "q" else "");
    if t == "" then "-" else t
  }

  /** getFEN: the placement, then colour, castling, en passant and the two
      clocks, separated by single spaces. */
  function FenText(rec: FenRecord): string {
    Join(FenFields(rec), ' ')
  }

  /** Whatever loadFEN accepts is a well-formed record: eight rows of
      eight squares holding only letters init accepts, and an en-passant
      field that is '-' or a square name. */
  lemma ParsedFenIsWellFormed(fen: string)
    ensures ParseFen(fen).Ok? ==> WellFormedRecord(ParseFen(fen).value)
  {
    var parts := Split(fen, ' ');
    if |parts| == 6 && ParsePlacement(parts[0]).Ok? {
      PlacementIsWellFormed(parts[0]);
    }
  }

  /** A placement that reads has eight rows of eight squares holding only
      letters init accepts. */
  lemma PlacementIsWellFormed(field: string)
    requires ParsePlacement(field).Ok?
    ensures IsPlacement(ParsePlacement(field).value)
  {
    var ranks := Split(field, '/');
    var results := RankResults(ranks);
    RanksReadAll(results, 0);
    RanksAllRead(results, 0);
    var p := ParsePlacement(field).value;
    forall r | 0 <= r < 8 ensures |p[r]| == 8 && LettersValid(p[r]) {
      ParsedRankIsRow(r, ranks[7 - r]);
      assert p[r] == results[7 - r].value;
    }
  }

  lemma CastlingRoundTrip(c: Castling)
    ensures ParseCastling(CastlingText(c)) == Ok(c)
    ensures CastlingText(c) in CanonicalCastlings
  {
    var Castling(wk, wq, bk, bq) := c;
    if wk {
      if wq {
        if bk { if bq { assert CastlingText(c) == "KQkq"; } else { assert CastlingText(c) == "KQk"; } }
        else { if bq { assert CastlingText(c) == "KQq"; } else { assert CastlingText(c) == "KQ"; } }
      } else {
        if bk { if bq { assert CastlingText(c) == "Kkq"; } else { assert CastlingText(c) == "Kk"; } }
        else { if bq { assert CastlingText(c) == "Kq"; } else { assert CastlingText(c) == "K"; } }
      }
    } else {
      if wq {
        if bk { if bq { assert CastlingText(c) == "Qkq"; } else { assert CastlingText(c) == "Qk"; } }
        else { if bq { assert CastlingText(c) == "Qq"; } else { assert CastlingText(c) == "Q"; } }
      } else {
        if bk { if bq { assert CastlingText(c) == "kq"; } else { assert CastlingText(c) == "k"; } }
        else { if bq { assert CastlingText(c) == "q"; } else { assert CastlingText(c) == "-"; } }
      }
    }
  }

  lemma IntTextAvoidsSpace(n: int)
    ensures ' ' !in IntText(n)
  {
    if n < 0 {
      NatTextShape(-n);
    } else {
      NatTextShape(n);
    }
  }

  /** loadFEN on six fields joined by spaces, each of which reads. */
  lemma ParseFenOfFields(fields: seq<string>, rec: FenRecord)
    requires |fields| == 6 && forall i :: 0 <= i < 6 ==> ' ' !in fields[i]
    requires ParsePlacement(fields[0]) == Ok(rec.placement)
    requires ParseColour(fields[1]) == Ok(rec.active)
    requires ParseCastling(fields[2]) == Ok(rec.castling)
    requires ParseEnPassant(fields[3]) == Ok(rec.enPassant)
    requires ParseNumeral(fields[4]) == Some(rec.halfMoves)
    requires ParseNumeral(fields[5]) == Some(rec.fullMoves)
    ensures ParseFen(Join(fields, ' ')) == Ok(rec)
  {
    SplitJoin(fields, ' ');
  }

  /** What an accepted text's fields read as. */
  lemma ParseFenFields(fen: string)
    requires ParseFen(fen).Ok?
    ensures |Split(fen, ' ')| == 6
    ensures var parts, rec := Split(fen, ' '), ParseFen(fen).value;
            && ParsePlacement(parts[0]) == Ok(rec.placement)
            && ParseColour(parts[1]) == Ok(rec.active)
            && ParseCastling(parts[2]) == Ok(rec.castling)
            && ParseEnPassant(parts[3]) == Ok(rec.enPassant)
            && ParseNumeral(parts[4]) == Some(rec.halfMoves)
            && ParseNumeral(parts[5]) == Some(rec.fullMoves)
  {
  }

  lemma EnPassantTextReads(ep: string)
    requires ep == "-" || ValidTextCoordinate(ep).Some?
    ensures ParseEnPassant(ep) == Ok(ep) && ' ' !in ep
  {
    if ep != "-" {
      assert ep == [ep[0], ep[1]];
    }
  }

  /** The six fields getFEN writes for a record. */
  function FenFields(rec: FenRecord): (fields: seq<string>)
    ensures |fields| == 6
  {
    [PlacementText(rec.placement), ColourText(rec.active), CastlingText(rec.castling),
     rec.enPassant, IntText(rec.halfMoves), IntText(rec.fullMoves)]
  }

  lemma PlacementTextAvoidsSpace(p: Placement)
    requires IsPlacement(p)
    ensures ' ' !in PlacementText(p)
  {
    PieceLetterIsNoSeparatorIfSlash();
    PlacementTextAvoids(p, ' ');
  }

  lemma CastlingTextAvoidsSpace(c: Castling)
    ensures ' ' !in CastlingText(c)
  {
    CastlingRoundTrip(c);
  }

  lemma FenFieldsAvoidSpace(rec: FenRecord)
    requires WellFormedRecord(rec)
    ensures forall i :: 0 <= i < 6 ==> ' ' !in FenFields(rec)[i]
  {
    var fields := FenFields(rec);
    PlacementTextAvoidsSpace(rec.placement);
    CastlingTextAvoidsSpace(rec.castling);
    EnPassantTextReads(rec.enPassant);
    IntTextAvoidsSpace(rec.halfMoves);
    IntTextAvoidsSpace(rec.fullMoves);
    forall i | 0 <= i < 6 ensures ' ' !in fields[i] {
      if i == 0 { assert fields[0] == PlacementText(rec.placement); }
      else if i == 1 { assert fields[1] == ColourText(rec.active); }
      else if i == 2 { assert fields[2] == CastlingText(rec.castling); }
      else if i == 3 { assert fields[3] == rec.enPassant; }
      else if i == 4 { assert fields[4] == IntText(rec.halfMoves); }
      else { assert fields[5] == IntText(rec.fullMoves); }
    }
  }

  lemma ColourRoundTrip(c: Colour)
    ensures ParseColour(ColourText(c)) == Ok(c)
  {
  }

  /** A record written by getFEN reads back as the same record. */
  lemma FenRoundTrip(rec: FenRecord)
    requires WellFormedRecord(rec)
    ensures ParseFen(FenText(rec)) == Ok(rec)
  {
    FenFieldsAvoidSpace(rec);
    PlacementRoundTrip(rec.placement);
    FieldsReadBack(rec);
    ParseFenOfFields(FenFields(rec), rec);
  }

  /** The five fields after the placement read back as the record's values. */
  lemma FieldsReadBack(rec: FenRecord)
    requires rec.enPassant == "-" || ValidTextCoordinate(rec.enPassant).Some?
    ensures var fields := FenFields(rec);
            && ParseColour(fields[1]) == Ok(rec.active)
            && ParseCastling(fields[2]) == Ok(rec.castling)
            && ParseEnPassant(fields[3]) == Ok(rec.enPassant)
            && ParseNumeral(fields[4]) == Some(rec.halfMoves)
            && ParseNumeral(fields[5]) == Some(rec.fullMoves)
  {
    ColourFieldReads(rec);
    CastlingFieldReads(rec);
    EnPassantFieldReads(rec);
    ClockFieldsRead(rec);
  }

  lemma ColourFieldReads(rec: FenRecord)
    ensures ParseColour(FenFields(rec)[1]) == Ok(rec.active)
  {
    ColourRoundTrip(rec.active);
  }

  lemma CastlingFieldReads(rec: FenRecord)
    ensures ParseCastling(FenFields(rec)[2]) == Ok(rec.castling)
  {
    CastlingRoundTrip(rec.castling);
  }

  lemma EnPassantFieldReads(rec: FenRecord)
    requires rec.enPassant == "-" || ValidTextCoordinate(rec.enPassant).Some?
    ensures ParseEnPassant(FenFields(rec)[3]) == Ok(rec.enPassant)
  {
    EnPassantTextReads(rec.enPassant);
  }

  lemma ClockFieldsRead(rec: FenRecord)
    ensures ParseNumeral(FenFields(rec)[4]) == Some(rec.halfMoves)
    ensures ParseNumeral(FenFields(rec)[5]) == Some(rec.fullMoves)
  {
    IntTextParses(rec.halfMoves);
    IntTextParses(rec.fullMoves);
  }

  /** The castling fields getFEN can write. */
  const CanonicalCastlings: set<string> :=
    {"-", "K", "Q", "k", "q", "KQ", "Kk", "Kq", "Qk", "Qq", "kq", "KQk", "KQq", "Kkq", "Qkq", "KQkq"}

  lemma CanonicalCastlingReprints(t: string)
    requires t in CanonicalCastlings
    ensures ParseCastling(t).Ok? && CastlingText(ParseCastling(t).value) == t
  {
    if t == "-" {
    } else if |t| == 1 {
      OneLetterCastling(t);
    } else if |t| == 2 {
      TwoLetterCastling(t);
    } else {
      LongCastling(t);
    }
  }

  lemma OneLetterCastling(t: string)
    requires t in {"K", "Q", "k", "q"}
    ensures ParseCastling(t).Ok? && CastlingText(ParseCastling(t).value) == t
  {
  }

  lemma TwoLetterCastling(t: string)
    requires t in {"KQ", "Kk", "Kq", "Qk", "Qq", "kq"}
    ensures ParseCastling(t).Ok? && CastlingText(ParseCastling(t).value) == t
  {
  }

  lemma LongCastling(t: string)
    requires t in {"KQk", "KQq", "Kkq", "Qkq", "KQkq"}
    ensures ParseCastling(t).Ok? && CastlingText(ParseCastling(t).value) == t
  {
  }


  /** A FEN text in the form getFEN writes: accepted by loadFEN, ranks
      without '0' or neighbouring digits, a lower-case colour, castling
      letters in the order K, Q, k, q (or '-'), and clocks printed as
      numbers print. */
  predicate CanonicalFen(fen: string) {
    var parts := Split(fen, ' ');
    && ParseFen(fen).Ok?
    && |parts| == 6
    && (forall i :: 0 <= i < |Split(parts[0], '/')| ==> CanonicalRank(Split(parts[0], '/')[i]))
    && (parts[1] == "w" || parts[1] == "b")
    && parts[2] in CanonicalCastlings
    && CanonicalNumeral(parts[4]) && CanonicalNumeral(parts[5])
  }

  lemma CanonicalColourReprints(t: string)
    requires t == "w" || t == "b"
    ensures ParseColour(t).Ok? && ColourText(ParseColour(t).value) == t
  {
  }

  lemma EnPassantReadsItself(t: string)
    requires ParseEnPassant(t).Ok?
    ensures ParseEnPassant(t).value == t
  {
  }

  /** A character other than '0' in front of a canonical rank text keeps
      it canonical, unless it is a digit and the text starts with one. */
  lemma CanonicalCons(c: char, u: string)
    requires CanonicalRank(u) && c != '0'
    requires IsDigit(c) ==> u == [] || !IsDigit(u[0])
    ensures CanonicalRank([c] + u)
  {
    var t := [c] + u;
    forall i | 0 <= i < |t| ensures t[i] != '0' {
      if i > 0 {
        assert t[i] == u[i - 1];
      }
    }
    forall i, j | 0 <= i < |t| && 0 <= j < |t| && j == i + 1 ensures !(IsDigit(t[i]) && IsDigit(t[j])) {
      if i > 0 {
        assert t[i] == u[i - 1] && t[j] == u[j - 1];
      }
    }
  }

  /** With at most nine squares in all, getFEN's inner loop writes each run
      of empty squares as one digit from 1 to 9, never two digits side by
      side. */
  lemma {:induction false} EncodeCellsCanonical(cells: seq<Option<char>>, spaces: nat)
    requires spaces + |cells| <= 9 && LettersValid(cells)
    ensures CanonicalRank(EncodeCells(cells, spaces))
    decreases |cells|
  {
    if cells == [] {
      if spaces > 0 {
        SingleDigitText(spaces);
        CanonicalCons(DigitChar(spaces), []);
        assert NatText(spaces) == [DigitChar(spaces)] + [];
      }
    } else {
      assert LettersValid(cells[1..]) by {
        forall i | 0 <= i < |cells[1..]| && cells[1..][i].Some? ensures IsPieceLetter(cells[1..][i].value) {
          assert cells[1..][i] == cells[i + 1];
        }
      }
      match cells[0] {
        case None =>
          EncodeCellsCanonical(cells[1..], spaces + 1);
        case Some(c) =>
          var rest := EncodeCells(cells[1..], 0);
          EncodeCellsCanonical(cells[1..], 0);
          assert IsPieceLetter(c) by { assert cells[0].Some?; }
          PieceLetterIsNoSeparator(c);
          CanonicalCons(c, rest);
          if spaces > 0 {
            SingleDigitText(spaces);
            CanonicalCons(DigitChar(spaces), [c] + rest);
            assert NatText(spaces) + [c] + rest == [DigitChar(spaces)] + ([c] + rest);
          } else {
            assert "" + [c] + rest == [c] + rest;
          }
      }
    }
  }

  /** getFEN writes every row of eight squares as a canonical rank text. */
  lemma EncodedRankCanonical(cells: seq<Option<char>>)
    requires |cells| == 8 && LettersValid(cells)
    ensures CanonicalRank(EncodeRank(cells))
  {
    EncodeCellsCanonical(cells, 0);
  }

  /** The text getFEN writes for a well-formed record is canonical, so with
      CanonicalFenReprints, reading and writing are inverse on exactly the
      canonical texts. */
  lemma FenTextCanonical(rec: FenRecord)
    requires WellFormedRecord(rec)
    ensures CanonicalFen(FenText(rec))
  {
    var p := rec.placement;
    FenRoundTrip(rec);
    FenFieldsAvoidSpace(rec);
    SplitJoin(FenFields(rec), ' ');
    PlacementTextSplits(p);
    RowTextsCanonical(p);
    CastlingRoundTrip(rec.castling);
    IntTextParses(rec.halfMoves);
    IntTextParses(rec.fullMoves);
  }

  /** getFEN writes every rank of a placement as a canonical rank text. */
  lemma RowTextsCanonical(p: Placement)
    requires IsPlacement(p)
    ensures forall i :: 0 <= i < |RowTexts(p)| ==> CanonicalRank(RowTexts(p)[i])
  {
    RowTextsAt(p);
    forall i | 0 <= i < 8 ensures CanonicalRank(RowTexts(p)[i]) {
      var cells := p[7 - i];
      assert |cells| == 8 && LettersValid(cells);
      EncodedRankCanonical(cells);
      assert RowTexts(p)[i] == EncodeRank(cells);
    }
  }

  /** Reading a canonical text and writing the record gives the text back. */
  lemma CanonicalFenReprints(fen: string)
    requires CanonicalFen(fen)
    ensures FenText(ParseFen(fen).value) == fen
  {
    CanonicalFieldsReprint(fen);
    JoinSplit(fen, ' ');
  }

  lemma CanonicalFieldsReprint(fen: string)
    requires CanonicalFen(fen)
    ensures FenFields(ParseFen(fen).value) == Split(fen, ' ')
  {
    var parts, rec := Split(fen, ' '), ParseFen(fen).value;
    ParseFenFields(fen);
    CanonicalPlacementReprints(parts[0]);
    CanonicalColourReprints(parts[1]);
    CanonicalCastlingReprints(parts[2]);
    EnPassantReadsItself(parts[3]);
    CanonicalNumeralPrints(parts[4]);
    CanonicalNumeralPrints(parts[5]);
    FieldsOfRecord(parts, rec);
  }

  /** A record whose six fields print as the six texts. */
  lemma FieldsOfRecord(parts: seq<string>, rec: FenRecord)
    requires |parts| == 6
    requires PlacementText(rec.placement) == parts[0]
    requires ColourText(rec.active) == parts[1]
    requires CastlingText(rec.castling) == parts[2]
    requires rec.enPassant == parts[3]
    requires IntText(rec.halfMoves) == parts[4]
    requires IntText(rec.fullMoves) == parts[5]
    ensures FenFields(rec) == parts
  {
    SixFieldsEqual(FenFields(rec), parts);
  }

  lemma SixFieldsEqual(a: seq<string>, b: seq<string>)
    requires |a| == 6 && |b| == 6
    requires a[0] == b[0] && a[1] == b[1] && a[2] == b[2] && a[3] == b[3] && a[4] == b[4] && a[5] == b[5]
    ensures a == b
  {
  }

  /** A placement field of canonical ranks is what getFEN writes for it. */
  lemma CanonicalPlacementReprints(field: string)
    requires ParsePlacement(field).Ok?
    requires forall i :: 0 <= i < |Split(field, '/')| ==> CanonicalRank(Split(field, '/')[i])
    ensures PlacementText(ParsePlacement(field).value) == field
  {
    var ranks := Split(field, '/');
    var results := RankResults(ranks);
    var p := ParsePlacement(field).value;
    RanksReadAll(results, 0);
    RanksAllRead(results, 0);
    RowTextsAt(p);
    forall j | 0 <= j < 8 ensures RowTexts(p)[j] == ranks[j] {
      CanonicalRankReprints(7 - j, ranks[j]);
      assert p[7 - j] == results[j].value;
    }
    assert RowTexts(p) == ranks;
    JoinSplit(field, '/');
  }

  // ------------------------------------------------------- start position

  /** A rank filled with the pieces the letters of s name, file a first. */
  function PieceRow(s: string): (cells: seq<Option<char>>)
    ensures |cells| == |s| && forall i :: 0 <= i < |s| ==> cells[i] == Some(s[i])
  {
    seq(|s|, i requires 0 <= i < |s| => Some(s[i]))
  }

  /** getFEN writes a rank without empty squares as its letters. */
  lemma {:induction false} FullRowText(s: string)
    ensures EncodeRank(PieceRow(s)) == s
    decreases |s|
  {
    if s != [] {
      FullRowText(s[1..]);
      assert PieceRow(s)[1..] == PieceRow(s[1..]);
      assert s == [s[0]] + s[1..];
    }
  }

  lemma EmptyRowText()
    ensures EncodeRank(Blanks(8)) == "8"
  {
    EncodeBlanks(8, [], 0);
    assert Blanks(8) + [] == Blanks(8);
  }

  /** The position START_FEN describes. */
  const StartPlacement: Placement := [
    PieceRow("RNBQKBNR"), PieceRow("PPPPPPPP"),
    Blanks(8), Blanks(8), Blanks(8), Blanks(8),
    PieceRow("pppppppp"), PieceRow("rnbqkbnr")
  ]

  const StartRecord: FenRecord :=
    FenRecord(StartPlacement, White, Castling(true, true, true, true), "-", 0, 0)

  /** A rank spelled with the twelve ASCII piece letters holds only valid letters. */
  lemma PieceRowLetters(s: string)
    requires forall i :: 0 <= i < |s| ==> s[i] in "KQRBNPkqrbnp"
    ensures LettersValid(PieceRow(s))
  {
    forall i | 0 <= i < |s| ensures IsPieceLetter(s[i]) {
      PieceLetters(s[i], 0, 0);
    }
  }

  lemma StartRowsWellFormed()
    ensures IsPlacement(StartPlacement)
  {
    forall r | 0 <= r < 8 ensures |StartPlacement[r]| == 8 && LettersValid(StartPlacement[r]) {
      if r == 0 {
        PieceRowLetters("RNBQKBNR");
      } else if r == 1 {
        PieceRowLetters("PPPPPPPP");
      } else if r == 6 {
        PieceRowLetters("pppppppp");
      } else if r == 7 {
        PieceRowLetters("rnbqkbnr");
      }
    }
  }

  lemma RowTextsAre(p: Placement, texts: seq<string>)
    requires |texts| == |p|
    requires forall j :: 0 <= j < |p| ==> EncodeRank(p[|p| - 1 - j]) == texts[j]
    ensures RowTexts(p) == texts
  {
    RowTextsAt(p);
  }

  lemma StartRowText(j: int)
    requires 0 <= j < 8
    ensures EncodeRank(StartPlacement[7 - j]) == StartRanks[j]
  {
    if j == 0 {
      FullRowText("rnbqkbnr");
    } else if j == 1 {
      FullRowText("pppppppp");
    } else if j == 6 {
      FullRowText("PPPPPPPP");
    } else if j == 7 {
      FullRowText("RNBQKBNR");
    } else {
      EmptyRowText();
    }
  }

  lemma StartRowTexts()
    ensures RowTexts(StartPlacement) == StartRanks
  {
    forall j | 0 <= j < 8 ensures EncodeRank(StartPlacement[7 - j]) == StartRanks[j] {
      StartRowText(j);
    }
    RowTextsAre(StartPlacement, StartRanks);
  }

  lemma AllCastlingText()
    ensures CastlingText(Castling(true, true, true, true)) == "KQkq"
  {
    assert "K" + "Q" + "k" + "q" == "KQkq";
  }

  lemma ZeroText()
    ensures IntText(0) == "0"
  {
    assert DigitChar(0) == '0';
  }

  lemma StartFields()
    ensures FenFields(StartRecord) == [Join(StartRanks, '/'), "w", "KQkq", "-", "0", "0"]
  {
    StartRowTexts();
    AllCastlingText();
    ZeroText();
  }

  /** START_FEN reads as the opening position: white to move, every
      castling flag set, no en-passant square, and both clocks at 0 (the
      constant's full-move number is 0, not the customary 1). */
  lemma StartFenReads()
    ensures ParseFen(StartFen) == Ok(StartRecord)
    ensures FenText(StartRecord) == StartFen
  {
    StartRowsWellFormed();
    StartFields();
    FenRoundTrip(StartRecord);
  }
}
