/** The squares of a board and the attack oracle (js/board.js getPiece,
    getPieceSafe, getPieceInDirection, squareIsAttacked). */
module Attack {
  import opened Wrappers
  import opened Constants
  import opened Coords
  import opened Pieces

  /** The board's squares: row r, file f holds an optional piece. */
  type Grid = seq<seq<Option<Piece>>>

  predicate IsGrid(g: Grid) {
    |g| == 8 && forall r :: 0 <= r < 8 ==> |g[r]| == 8
  }

  /** getPieceSafe: the piece at (row, file); nothing off the board. */
  function PieceSafe(g: Grid, row: int, file: int): Option<Piece> {
    if 0 <= row < |g| && 0 <= file < |g[row]| then g[row][file] else None
  }

  /** getPiece: the piece at (row, file); off the board it throws, naming
      the square. On the board it agrees with getPieceSafe, which finds
      nothing wherever getPiece throws. */
  function GetPiece(g: Grid, row: int, file: int): (r: Result<Option<Piece>, Square>)
    requires IsGrid(g)
    ensures r.Ok? <==> 0 <= row < 8 && 0 <= file < 8
    ensures r.Ok? ==> r.value == PieceSafe(g, row, file)
    ensures r.Err? ==> r.error == Square(row, file) && PieceSafe(g, row, file).None?
  {
    if !ValidCoordinate(row, file) then Err(Square(row, file)) else Ok(g[row][file])
  }

  /** What getPieceSafe finds at distance k from (row, file) in direction d. */
  function RayAt(g: Grid, row: int, file: int, d: (int, int), k: int): Option<Piece> {
    PieceSafe(g, row + d.0 * k, file + d.1 * k)
  }

  /** No piece at distances from..to-1 along direction d. */
  predicate ClearBetween(g: Grid, row: int, file: int, d: (int, int), from: int, to: int) {
    forall m :: from <= m < to ==> RayAt(g, row, file, d, m) == None
  }

  /** getPieceInDirection, from distance k on: the first piece met within
      distance 8. */
  function FirstInDirection(g: Grid, row: int, file: int, d: (int, int), k: nat): Option<Piece>
    decreases 9 - k
  {
    if k > 8 then None
    else if RayAt(g, row, file, d, k).Some? then RayAt(g, row, file, d, k)
    else FirstInDirection(g, row, file, d, k + 1)
  }

  /** The ray search returns the piece at the nearest occupied distance:
      a piece comes back only from an occupied square with nothing
      nearer, and every such square is what comes back. */
  lemma {:induction false} FirstInDirectionIsNearest(g: Grid, row: int, file: int, d: (int, int), k: nat)
    requires k >= 1
    ensures FirstInDirection(g, row, file, d, k).Some? ==>
              exists j :: k <= j <= 8 && RayAt(g, row, file, d, j) == FirstInDirection(g, row, file, d, k)
                          && ClearBetween(g, row, file, d, k, j)
    ensures forall j :: k <= j <= 8 && RayAt(g, row, file, d, j).Some? && ClearBetween(g, row, file, d, k, j) ==>
              FirstInDirection(g, row, file, d, k) == RayAt(g, row, file, d, j)
    decreases 9 - k
  {
    if k <= 8 && RayAt(g, row, file, d, k).None? {
      FirstInDirectionIsNearest(g, row, file, d, k + 1);
      if FirstInDirection(g, row, file, d, k).Some? {
        var j :| k + 1 <= j <= 8 && RayAt(g, row, file, d, j) == FirstInDirection(g, row, file, d, k + 1)
                 && ClearBetween(g, row, file, d, k + 1, j);
        assert ClearBetween(g, row, file, d, k, j);
      }
    } else if k <= 8 {
      assert ClearBetween(g, row, file, d, k, k);
    }
  }

  predicate HoldsAttacker(p: Option<Piece>, c: Colour, kinds: set<Kind>) {
    p.Some? && p.value.colour == c && p.value.kind in kinds
  }

  /** Scanning the offsets from the last to the first, the first square
      (row, file) + offset holding a c-coloured piece of one of the kinds. */
  function ScanJumps(g: Grid, row: int, file: int, offs: seq<(int, int)>, c: Colour, kinds: set<Kind>): Option<Piece>
  {
    if offs == [] then None
    else
      var o := offs[|offs| - 1];
      var p := PieceSafe(g, row + o.0, file + o.1);
      if HoldsAttacker(p, c, kinds) then p
      else ScanJumps(g, row, file, offs[..|offs| - 1], c, kinds)
  }

  /** Scanning the directions from the last to the first, the first piece
      met along a direction when it is c-coloured and of one of the kinds. */
  function ScanRays(g: Grid, row: int, file: int, dirs: seq<(int, int)>, c: Colour, kinds: set<Kind>): Option<Piece>
  {
    if dirs == [] then None
    else
      var p := FirstInDirection(g, row, file, dirs[|dirs| - 1], 1);
      if HoldsAttacker(p, c, kinds) then p
      else ScanRays(g, row, file, dirs[..|dirs| - 1], c, kinds)
  }

  /** The offsets, from the attacked square, of the squares a c-coloured
      pawn attacks it from: one row behind in c's direction of travel, one
      file either side (the source lists file + 1 first). */
  function PawnOffsets(c: Colour): seq<(int, int)> {
    var direction := if c == White then 1 else -1;
    [(-direction, 1), (-direction, -1)]
  }

  /** squareIsAttacked: pawns first, then knights, then bishops and queens
      along the diagonals, then rooks and queens along the orthogonals; the
      first attacker found, or nothing. */
  function Attacker(g: Grid, row: int, file: int, c: Colour): Option<Piece> {
    var pawn := ScanJumps(g, row, file, PawnOffsets(c), c, {Pawn});
    if pawn.Some? then pawn
    else
      var knight := ScanJumps(g, row, file, KnightMoves, c, {Knight});
      if knight.Some? then knight
      else
        var diagonal := ScanRays(g, row, file, BishopDirections, c, {Bishop, Queen});
        if diagonal.Some? then diagonal
        else ScanRays(g, row, file, RookDirections, c, {Rook, Queen})
  }

  /** `p` attacks (row, file) from one of the offsets. */
  predicate JumpsFrom(g: Grid, row: int, file: int, offs: seq<(int, int)>, c: Colour, kinds: set<Kind>, p: Piece) {
    exists i :: 0 <= i < |offs| && PieceSafe(g, row + offs[i].0, file + offs[i].1) == Some(p)
                && HoldsAttacker(Some(p), c, kinds)
  }

  /** `p` is the first piece along one of the directions from (row, file),
      within distance 8, and is c-coloured and of one of the kinds. */
  predicate SlidesFrom(g: Grid, row: int, file: int, dirs: seq<(int, int)>, c: Colour, kinds: set<Kind>, p: Piece) {
    exists i, k :: 0 <= i < |dirs| && 1 <= k <= 8 && RayAt(g, row, file, dirs[i], k) == Some(p)
                   && ClearBetween(g, row, file, dirs[i], 1, k) && HoldsAttacker(Some(p), c, kinds)
  }

  /** `p` attacks (row, file) for c in one of the four ways the oracle knows. */
  predicate AttacksSquare(g: Grid, row: int, file: int, c: Colour, p: Piece) {
    || JumpsFrom(g, row, file, PawnOffsets(c), c, {Pawn}, p)
    || JumpsFrom(g, row, file, KnightMoves, c, {Knight}, p)
    || SlidesFrom(g, row, file, BishopDirections, c, {Bishop, Queen}, p)
    || SlidesFrom(g, row, file, RookDirections, c, {Rook, Queen}, p)
  }

  lemma {:induction false} ScanJumpsFinds(g: Grid, row: int, file: int, offs: seq<(int, int)>, c: Colour, kinds: set<Kind>)
    ensures ScanJumps(g, row, file, offs, c, kinds).Some? ==>
              JumpsFrom(g, row, file, offs, c, kinds, ScanJumps(g, row, file, offs, c, kinds).value)
    ensures forall p :: JumpsFrom(g, row, file, offs, c, kinds, p) ==> ScanJumps(g, row, file, offs, c, kinds).Some?
  {
    if offs != [] {
      var front := offs[..|offs| - 1];
      ScanJumpsFinds(g, row, file, front, c, kinds);
      var o := offs[|offs| - 1];
      forall p | JumpsFrom(g, row, file, offs, c, kinds, p)
        ensures ScanJumps(g, row, file, offs, c, kinds).Some?
      {
        var i :| 0 <= i < |offs| && PieceSafe(g, row + offs[i].0, file + offs[i].1) == Some(p)
                 && HoldsAttacker(Some(p), c, kinds);
        if i < |offs| - 1 {
          assert front[i] == offs[i];
          assert JumpsFrom(g, row, file, front, c, kinds, p);
        } else {
          assert HoldsAttacker(PieceSafe(g, row + o.0, file + o.1), c, kinds);
        }
      }
      if ScanJumps(g, row, file, offs, c, kinds).Some? && !HoldsAttacker(PieceSafe(g, row + o.0, file + o.1), c, kinds) {
        var p := ScanJumps(g, row, file, front, c, kinds).value;
        var i :| 0 <= i < |front| && PieceSafe(g, row + front[i].0, file + front[i].1) == Some(p)
                 && HoldsAttacker(Some(p), c, kinds);
        assert offs[i] == front[i];
      }
    }
  }

  lemma {:induction false} ScanRaysFinds(g: Grid, row: int, file: int, dirs: seq<(int, int)>, c: Colour, kinds: set<Kind>)
    ensures ScanRays(g, row, file, dirs, c, kinds).Some? ==>
              SlidesFrom(g, row, file, dirs, c, kinds, ScanRays(g, row, file, dirs, c, kinds).value)
    ensures forall p :: SlidesFrom(g, row, file, dirs, c, kinds, p) ==> ScanRays(g, row, file, dirs, c, kinds).Some?
  {
    if dirs != [] {
      var front := dirs[..|dirs| - 1];
      var d := dirs[|dirs| - 1];
      ScanRaysFinds(g, row, file, front, c, kinds);
      FirstInDirectionIsNearest(g, row, file, d, 1);
      forall p | SlidesFrom(g, row, file, dirs, c, kinds, p)
        ensures ScanRays(g, row, file, dirs, c, kinds).Some?
      {
        var i, k :| 0 <= i < |dirs| && 1 <= k <= 8 && RayAt(g, row, file, dirs[i], k) == Some(p)
                    && ClearBetween(g, row, file, dirs[i], 1, k) && HoldsAttacker(Some(p), c, kinds);
        if i < |dirs| - 1 {
          assert front[i] == dirs[i];
          assert SlidesFrom(g, row, file, front, c, kinds, p);
        } else {
          assert FirstInDirection(g, row, file, d, 1) == Some(p);
        }
      }
      var first := FirstInDirection(g, row, file, d, 1);
      if HoldsAttacker(first, c, kinds) {
        var k :| 1 <= k <= 8 && RayAt(g, row, file, d, k) == first && ClearBetween(g, row, file, d, 1, k);
        assert dirs[|dirs| - 1] == d;
      } else if ScanRays(g, row, file, dirs, c, kinds).Some? {
        var p := ScanRays(g, row, file, front, c, kinds).value;
        var i, k :| 0 <= i < |front| && 1 <= k <= 8 && RayAt(g, row, file, front[i], k) == Some(p)
                    && ClearBetween(g, row, file, front[i], 1, k) && HoldsAttacker(Some(p), c, kinds);
        assert dirs[i] == front[i];
      }
    }
  }

  /** The oracle is right about the fact of an attack: it reports a piece
      exactly when some c-coloured pawn, knight, bishop, rook or queen
      attacks the square, every piece it reports is such an attacker, and
      it never reports a king. */
  lemma AttackerCharacterised(g: Grid, row: int, file: int, c: Colour)
    ensures Attacker(g, row, file, c).Some? ==>
              && AttacksSquare(g, row, file, c, Attacker(g, row, file, c).value)
              && Attacker(g, row, file, c).value.colour == c
              && Attacker(g, row, file, c).value.kind != King
    ensures forall p :: AttacksSquare(g, row, file, c, p) ==> Attacker(g, row, file, c).Some?
  {
    ScanJumpsFinds(g, row, file, PawnOffsets(c), c, {Pawn});
    ScanJumpsFinds(g, row, file, KnightMoves, c, {Knight});
    ScanRaysFinds(g, row, file, BishopDirections, c, {Bishop, Queen});
    ScanRaysFinds(g, row, file, RookDirections, c, {Rook, Queen});
  }

  /** getPieceInDirection, as the source runs it: distances 1 to 8 in turn. */
  method GetPieceInDirection(g: Grid, row: int, file: int, d: (int, int)) returns (piece: Option<Piece>)
    ensures piece == FirstInDirection(g, row, file, d, 1)
  {
    var distance := 0;
    piece := None;
    while distance < 8
      invariant 0 <= distance <= 8
      invariant FirstInDirection(g, row, file, d, 1) == FirstInDirection(g, row, file, d, distance + 1)
    {
      distance := distance + 1;
      piece := PieceSafe(g, row + d.0 * distance, file + d.1 * distance);
      if piece.Some? {
        return;
      }
    }
    piece := None;
  }

  /** One of squareIsAttacked's scans over a table of offsets, last entry first. */
  method ScanJumpTable(g: Grid, row: int, file: int, offs: seq<(int, int)>, c: Colour, kinds: set<Kind>)
    returns (piece: Option<Piece>)
    ensures piece == ScanJumps(g, row, file, offs, c, kinds)
  {
    var i := |offs|;
    assert offs[..i] == offs;
    while i > 0
      invariant 0 <= i <= |offs|
      invariant ScanJumps(g, row, file, offs, c, kinds) == ScanJumps(g, row, file, offs[..i], c, kinds)
    {
      i := i - 1;
      assert offs[..i + 1][..i] == offs[..i];
      piece := PieceSafe(g, row + offs[i].0, file + offs[i].1);
      if HoldsAttacker(piece, c, kinds) {
        return;
      }
    }
    assert offs[..0] == [];
    piece := None;
  }

  /** One of squareIsAttacked's scans over a table of directions, last entry first. */
  method ScanRayTable(g: Grid, row: int, file: int, dirs: seq<(int, int)>, c: Colour, kinds: set<Kind>)
    returns (piece: Option<Piece>)
    ensures piece == ScanRays(g, row, file, dirs, c, kinds)
  {
    var i := |dirs|;
    assert dirs[..i] == dirs;
    while i > 0
      invariant 0 <= i <= |dirs|
      invariant ScanRays(g, row, file, dirs, c, kinds) == ScanRays(g, row, file, dirs[..i], c, kinds)
    {
      i := i - 1;
      assert dirs[..i + 1][..i] == dirs[..i];
      piece := GetPieceInDirection(g, row, file, dirs[i]);
      if HoldsAttacker(piece, c, kinds) {
        return;
      }
    }
    assert dirs[..0] == [];
    piece := None;
  }

  /** squareIsAttacked, as the source runs it. */
  method SquareIsAttacked(g: Grid, row: int, file: int, c: Colour) returns (attacker: Option<Piece>)
    ensures attacker == Attacker(g, row, file, c)
    ensures attacker.Some? ==> attacker.value.colour == c && attacker.value.kind != King
  {
    AttackerCharacterised(g, row, file, c);
    attacker := ScanJumpTable(g, row, file, PawnOffsets(c), c, {Pawn});
    if attacker.Some? {
      return;
    }
    attacker := ScanJumpTable(g, row, file, KnightMoves, c, {Knight});
    if attacker.Some? {
      return;
    }
    attacker := ScanRayTable(g, row, file, BishopDirections, c, {Bishop, Queen});
    if attacker.Some? {
      return;
    }
    attacker := ScanRayTable(g, row, file, RookDirections, c, {Rook, Queen});
  }
}
