/** Candidate moves per kind of piece (js/piece.js validMoves and the
    validmoves* generators, validateDirections). Each generator is given
    as a function, which the lemmas characterise, and as a method that
    runs the source's loops and is proved to compute that function. */
module Moves {
  import opened Wrappers
  import opened Text
  import opened Constants
  import opened Coords
  import opened Pieces
  import opened Attack

  /** The third element of a pawn candidate: 'm' (move only) or 'a'
      (attack only); other pieces' candidates carry none. */
  datatype Tag = Untagged | MoveOnly | AttackOnly

  datatype Move = Move(row: int, file: int, tag: Tag)

  /** A piece of colour `me` may end on (r, f): it is on the board, and
      empty or held by the other colour. */
  predicate Lands(g: Grid, me: Colour, r: int, f: int) {
    ValidCoordinate(r, f) && (PieceSafe(g, r, f).None? || PieceSafe(g, r, f).value.colour != me)
  }

  /** The square at distance m along d is on the board and empty. */
  predicate Open(g: Grid, row: int, file: int, d: (int, int), m: int) {
    ValidCoordinate(row + d.0 * m, file + d.1 * m) && RayAt(g, row, file, d, m).None?
  }

  /** A slider of colour `me` at (row, file) stepping along d from
      distance `from` on can end at distance k: every square before it is
      open and it can land there. */
  predicate ReachesFrom(g: Grid, row: int, file: int, me: Colour, d: (int, int), from: int, k: int) {
    Lands(g, me, row + d.0 * k, file + d.1 * k) && forall m :: from <= m < k ==> Open(g, row, file, d, m)
  }

  /** One direction of validateDirections, from distance `dist` on: empty
      squares are listed and the ray goes on; a square of the other colour
      is listed and ends the ray; a square of the piece's own colour or
      the edge of the board ends it unlisted. */
  function Ray(g: Grid, row: int, file: int, me: Colour, d: (int, int), maxDist: int, dist: int): seq<Move>
    requires IsGrid(g)
    decreases maxDist + 1 - dist
  {
    if dist > maxDist then []
    else
      var newRow := d.0 * dist + row;
      var newFile := d.1 * dist + file;
      if !ValidCoordinate(newRow, newFile) then []
      else match g[newRow][newFile]
        case None => [Move(newRow, newFile, Untagged)] + Ray(g, row, file, me, d, maxDist, dist + 1)
        case Some(p) => if p.colour != me then [Move(newRow, newFile, Untagged)] else []
  }

  /** validateDirections: the rays of the listed directions, the last
      direction first, as the source's `while (i--)` takes them. */
  function Directions(g: Grid, row: int, file: int, me: Colour, dirs: seq<(int, int)>, maxDist: int): seq<Move>
    requires IsGrid(g)
  {
    if dirs == [] then []
    else Ray(g, row, file, me, dirs[|dirs| - 1], maxDist, 1) + Directions(g, row, file, me, dirs[..|dirs| - 1], maxDist)
  }

  /** mv is a square a slider of colour `me` at (row, file) reaches along
      d at some distance between `from` and maxDist. */
  predicate RayReaches(g: Grid, row: int, file: int, me: Colour, d: (int, int), from: int, maxDist: int, mv: Move) {
    && mv.tag == Untagged
    && exists k :: from <= k <= maxDist && mv.row == row + d.0 * k && mv.file == file + d.1 * k
                   && ReachesFrom(g, row, file, me, d, from, k)
  }

  /** The ray from distance `dist` lists exactly the squares reached from there. */
  lemma {:induction false} RayListsReachable(g: Grid, row: int, file: int, me: Colour, d: (int, int), maxDist: int, dist: int)
    requires IsGrid(g)
    ensures forall mv :: mv in Ray(g, row, file, me, d, maxDist, dist) <==> RayReaches(g, row, file, me, d, dist, maxDist, mv)
    decreases maxDist + 1 - dist
  {
    if dist <= maxDist {
      var newRow := d.0 * dist + row;
      var newFile := d.1 * dist + file;
      if ValidCoordinate(newRow, newFile) && g[newRow][newFile].None? {
        RayListsReachable(g, row, file, me, d, maxDist, dist + 1);
        forall mv ensures mv in Ray(g, row, file, me, d, maxDist, dist) <==> RayReaches(g, row, file, me, d, dist, maxDist, mv) {
          ReachesPastOpen(g, row, file, me, d, maxDist, dist, mv);
        }
      } else {
        forall mv ensures mv in Ray(g, row, file, me, d, maxDist, dist) <==> RayReaches(g, row, file, me, d, dist, maxDist, mv) {
          ReachesBlocked(g, row, file, me, d, maxDist, dist, mv);
        }
      }
    } else {
      forall mv ensures !RayReaches(g, row, file, me, d, dist, maxDist, mv) {
      }
    }
  }

  /** Past an open square the ray reaches that square and whatever it
      reaches from the next distance on. */
  lemma ReachesPastOpen(g: Grid, row: int, file: int, me: Colour, d: (int, int), maxDist: int, dist: int, mv: Move)
    requires IsGrid(g) && dist <= maxDist && Open(g, row, file, d, dist)
    ensures RayReaches(g, row, file, me, d, dist, maxDist, mv) <==>
              mv == Move(row + d.0 * dist, file + d.1 * dist, Untagged) || RayReaches(g, row, file, me, d, dist + 1, maxDist, mv)
  {
    if RayReaches(g, row, file, me, d, dist, maxDist, mv) {
      var k :| dist <= k <= maxDist && mv.row == row + d.0 * k && mv.file == file + d.1 * k
               && ReachesFrom(g, row, file, me, d, dist, k);
      if k > dist {
        assert ReachesFrom(g, row, file, me, d, dist + 1, k);
      }
    }
    if RayReaches(g, row, file, me, d, dist + 1, maxDist, mv) {
      var k :| dist + 1 <= k <= maxDist && mv.row == row + d.0 * k && mv.file == file + d.1 * k
               && ReachesFrom(g, row, file, me, d, dist + 1, k);
      assert ReachesFrom(g, row, file, me, d, dist, k);
    }
    if mv == Move(row + d.0 * dist, file + d.1 * dist, Untagged) {
      assert ReachesFrom(g, row, file, me, d, dist, dist);
    }
  }

  /** At a square that is not open the ray ends: it reaches that square
      only when it can land there. */
  lemma ReachesBlocked(g: Grid, row: int, file: int, me: Colour, d: (int, int), maxDist: int, dist: int, mv: Move)
    requires IsGrid(g) && dist <= maxDist && !Open(g, row, file, d, dist)
    ensures RayReaches(g, row, file, me, d, dist, maxDist, mv) <==>
              mv == Move(row + d.0 * dist, file + d.1 * dist, Untagged) && Lands(g, me, mv.row, mv.file)
    ensures Ray(g, row, file, me, d, maxDist, dist) ==
              if Lands(g, me, row + d.0 * dist, file + d.1 * dist) then [Move(row + d.0 * dist, file + d.1 * dist, Untagged)] else []
  {
    if mv == Move(row + d.0 * dist, file + d.1 * dist, Untagged) && Lands(g, me, mv.row, mv.file) {
      assert ReachesFrom(g, row, file, me, d, dist, dist);
    }
  }

  /** validateDirections lists exactly the squares a slider reaches: for
      some listed direction d and distance 1..maxDist, every square before
      it on the ray is on the board and empty, and it is on the board and
      empty or held by the other colour. Nothing past the first occupied
      square of a ray, or past the edge, is ever listed. */
  lemma {:induction false} DirectionsListReachable(g: Grid, row: int, file: int, me: Colour, dirs: seq<(int, int)>, maxDist: int)
    requires IsGrid(g)
    ensures forall mv :: mv in Directions(g, row, file, me, dirs, maxDist) <==>
              exists i :: 0 <= i < |dirs| && RayReaches(g, row, file, me, dirs[i], 1, maxDist, mv)
  {
    if dirs != [] {
      var front := dirs[..|dirs| - 1];
      var d := dirs[|dirs| - 1];
      DirectionsListReachable(g, row, file, me, front, maxDist);
      RayListsReachable(g, row, file, me, d, maxDist, 1);
      forall mv ensures mv in Directions(g, row, file, me, dirs, maxDist) <==>
              exists i :: 0 <= i < |dirs| && RayReaches(g, row, file, me, dirs[i], 1, maxDist, mv)
      {
        if exists i :: 0 <= i < |dirs| && RayReaches(g, row, file, me, dirs[i], 1, maxDist, mv) {
          var i :| 0 <= i < |dirs| && RayReaches(g, row, file, me, dirs[i], 1, maxDist, mv);
          if i < |dirs| - 1 {
            assert front[i] == dirs[i];
          }
        }
        if mv in Directions(g, row, file, me, front, maxDist) {
          var i :| 0 <= i < |front| && RayReaches(g, row, file, me, front[i], 1, maxDist, mv);
          assert dirs[i] == front[i];
        }
      }
    }
  }

  /** One pass of validateDirections' inner loop: walk outward along d
      from distance 1 until the ray is blocked, leaves the board or passes
      maxDist. */
  method WalkRay(g: Grid, row: int, file: int, me: Colour, d: (int, int), maxDist: int) returns (moves: seq<Move>)
    requires IsGrid(g)
    ensures moves == Ray(g, row, file, me, d, maxDist, 1)
  {
    moves := [];
    var dist := 1;
    while dist <= maxDist
      invariant dist >= 1
      invariant Ray(g, row, file, me, d, maxDist, 1) == moves + Ray(g, row, file, me, d, maxDist, dist)
      decreases maxDist + 1 - dist
    {
      var newRow := d.0 * dist + row;
      var newFile := d.1 * dist + file;
      if !ValidCoordinate(newRow, newFile) {
        return;                                  // end of board
      }
      var piece := g[newRow][newFile];
      if piece.Some? {
        if piece.value.colour != me {
          moves := moves + [Move(newRow, newFile, Untagged)];
        }
        return;
      }
      moves := moves + [Move(newRow, newFile, Untagged)];
      dist := dist + 1;
    }
  }

  /** validateDirections, as the source runs it: directions last first,
      each walked outward by WalkRay. */
  method ValidateDirections(g: Grid, row: int, file: int, me: Colour, directions: seq<(int, int)>, maxDist: int)
    returns (validMoves: seq<Move>)
    requires IsGrid(g)
    ensures validMoves == Directions(g, row, file, me, directions, maxDist)
  {
    validMoves := [];
    var i := |directions|;
    assert directions[..i] == directions;
    while i > 0
      invariant 0 <= i <= |directions|
      invariant validMoves + Directions(g, row, file, me, directions[..i], maxDist)
                == Directions(g, row, file, me, directions, maxDist)
    {
      i := i - 1;
      assert directions[..i + 1][..i] == directions[..i];
      var ray := WalkRay(g, row, file, me, directions[i], maxDist);
      validMoves := validMoves + ray;
    }
    assert directions[..0] == [];
  }

  /** validmovesKnight, scanning KNIGHT_MOVES from entry i - 1 down to 0:
      each jump target the knight can land on; targets off the board are
      passed over. */
  function KnightTargets(g: Grid, row: int, file: int, me: Colour, i: nat): seq<Move>
    requires i <= |KnightMoves|
  {
    if i == 0 then []
    else
      var jump := KnightMoves[i - 1];
      (if Lands(g, me, row + jump.0, file + jump.1) then [Move(row + jump.0, file + jump.1, Untagged)] else [])
      + KnightTargets(g, row, file, me, i - 1)
  }

  /** The knight's candidates are exactly the KNIGHT_MOVES targets that are
      on the board and empty or held by the other colour. */
  lemma {:induction false} KnightTargetsAreJumps(g: Grid, row: int, file: int, me: Colour, i: nat)
    requires i <= |KnightMoves|
    ensures forall mv :: mv in KnightTargets(g, row, file, me, i) <==>
              mv.tag == Untagged && exists j :: 0 <= j < i && mv.row == row + KnightMoves[j].0
                                                && mv.file == file + KnightMoves[j].1 && Lands(g, me, mv.row, mv.file)
  {
    if i > 0 {
      KnightTargetsAreJumps(g, row, file, me, i - 1);
    }
  }

  /** validmovesKnight, as the source runs it. */
  method KnightCandidates(g: Grid, row: int, file: int, me: Colour) returns (validMoves: seq<Move>)
    requires IsGrid(g)
    ensures validMoves == KnightTargets(g, row, file, me, |KnightMoves|)
  {
    validMoves := [];
    var i := |KnightMoves|;
    while i > 0
      invariant 0 <= i <= |KnightMoves|
      invariant validMoves + KnightTargets(g, row, file, me, i) == KnightTargets(g, row, file, me, |KnightMoves|)
    {
      i := i - 1;
      var jump := KnightMoves[i];
      var found: seq<Move> := [];
      // getPiece throws off the board, and the throw skips the jump
      if ValidCoordinate(row + jump.0, file + jump.1) {
        var piece := g[row + jump.0][file + jump.1];
        if piece.None? || piece.value.colour != me {
          found := [Move(row + jump.0, file + jump.1, Untagged)];
        }
      }
      KnightStep(g, row, file, me, i, found);
      AppendAssoc(validMoves, found, KnightTargets(g, row, file, me, i));
      validMoves := validMoves + found;
    }
  }

  /** One entry of KNIGHT_MOVES contributes its target when the knight lands there. */
  lemma KnightStep(g: Grid, row: int, file: int, me: Colour, i: nat, found: seq<Move>)
    requires IsGrid(g) && i < |KnightMoves|
    requires var r, f := row + KnightMoves[i].0, file + KnightMoves[i].1;
             found == if ValidCoordinate(r, f) && (g[r][f].None? || g[r][f].value.colour != me)
                      then [Move(r, f, Untagged)] else []
    ensures KnightTargets(g, row, file, me, i + 1) == found + KnightTargets(g, row, file, me, i)
  {
  }

  lemma AppendAssoc<T>(a: seq<T>, b: seq<T>, c: seq<T>)
    ensures a + (b + c) == (a + b) + c
  {
  }

  /** The queen's directions: ROOK_DIRECTIONS followed by
      BISHOP_DIRECTIONS, as the queen and the king concatenate them. */
  const QueenDirections: seq<(int, int)> := RookDirections + BishopDirections

  /** The direction a pawn of colour `me` travels in. */
  function Forward(me: Colour): int {
    if me == White then 1 else -1
  }

  /** The squares a pawn looks at to attack: file - 1 when file > 0, then
      file + 1 when file < 7, one row forward. */
  function PawnAttackSquares(row: int, file: int, me: Colour): seq<Square> {
    (if file > 0 then [Square(row + Forward(me), file - 1)] else [])
    + (if file < 7 then [Square(row + Forward(me), file + 1)] else [])
  }

  /** The attack candidates among squares[..i], last first: each square
      held by a piece of the other colour, tagged 'a'. */
  function PawnAttacks(g: Grid, squares: seq<Square>, me: Colour, i: nat): seq<Move>
    requires i <= |squares|
  {
    if i == 0 then []
    else
      var sq := squares[i - 1];
      var target := PieceSafe(g, sq.row, sq.file);
      (if target.Some? && target.value.colour != me then [Move(sq.row, sq.file, AttackOnly)] else [])
      + PawnAttacks(g, squares, me, i - 1)
  }

  /** validmovesPawn: one square forward if it is empty, and then two from
      the starting row if that square is empty too, both tagged 'm'; then
      the forward diagonals held by the other colour, tagged 'a'. When the
      forward square is off the board getPiece throws, naming it. */
  function PawnMoves(g: Grid, row: int, file: int, me: Colour): Result<seq<Move>, Square>
    requires IsGrid(g) && ValidCoordinate(row, file)
  {
    var distance := Forward(me);
    if !ValidCoordinate(row + distance, file) then Err(Square(row + distance, file))
    else
      var squares := PawnAttackSquares(row, file, me);
      Ok(PawnAdvances(g, row, file, me) + PawnAttacks(g, squares, me, |squares|))
  }

  /** The pawn's forward candidates: one square ahead if it is empty, and
      then two from the starting row if that square is empty too. */
  function PawnAdvances(g: Grid, row: int, file: int, me: Colour): seq<Move>
    requires IsGrid(g) && ValidCoordinate(row, file) && ValidCoordinate(row + Forward(me), file)
  {
    var distance := Forward(me);
    var starting := if me == White then row == 1 else row == 6;
    if g[row + distance][file].Some? then []
    else [Move(row + distance, file, MoveOnly)]
         + (if starting && g[row + 2 * distance][file].None? then [Move(row + 2 * distance, file, MoveOnly)] else [])
  }

  /** The source also compares the number row + file of each attacked
      square with the en-passant text (`==` between a number and a string
      converts the string to a number). That text is '-' or a square name,
      neither of which reads as a number, so the test never holds and the
      en-passant branch never adds a candidate. */
  predicate EnPassantTest(sum: int, enpassant: string) {
    ParseNumeral(enpassant) == Some(sum)
  }

  lemma EnPassantNeverMatches(sum: int, enpassant: string)
    requires enpassant == "-" || ValidTextCoordinate(enpassant).Some?
    ensures !EnPassantTest(sum, enpassant)
  {
    if enpassant != "-" {
      assert !IsDigit(enpassant[0]) && enpassant[0] != '-' && enpassant[0] != '+';
    }
  }

  lemma {:induction false} PawnAttacksAreCaptures(g: Grid, squares: seq<Square>, me: Colour, i: nat)
    requires i <= |squares|
    ensures forall mv :: mv in PawnAttacks(g, squares, me, i) <==>
              mv.tag == AttackOnly && Square(mv.row, mv.file) in squares[..i]
              && PieceSafe(g, mv.row, mv.file).Some? && PieceSafe(g, mv.row, mv.file).value.colour != me
  {
    if i > 0 {
      PawnAttacksAreCaptures(g, squares, me, i - 1);
      assert squares[..i] == squares[..i - 1] + [squares[i - 1]];
    }
  }

  /** The pawn's candidates: the forward square if empty, tagged 'm'; the
      square two ahead only from row 1 (white) or row 6 (black) with both
      squares empty, tagged 'm'; and exactly the on-board forward diagonals
      held by the other colour, tagged 'a'. Generation fails exactly when
      the forward square is off the board. */
  lemma PawnMovesCharacterised(g: Grid, row: int, file: int, me: Colour)
    requires IsGrid(g) && ValidCoordinate(row, file)
    ensures PawnMoves(g, row, file, me).Err? <==> !ValidCoordinate(row + Forward(me), file)
    ensures PawnMoves(g, row, file, me).Ok? ==> forall mv :: mv in PawnMoves(g, row, file, me).value <==>
              || (mv == Move(row + Forward(me), file, MoveOnly) && g[row + Forward(me)][file].None?)
              || (&& mv == Move(row + 2 * Forward(me), file, MoveOnly)
                  && (if me == White then row == 1 else row == 6)
                  && g[row + Forward(me)][file].None? && g[row + 2 * Forward(me)][file].None?)
              || (&& mv.tag == AttackOnly && mv.row == row + Forward(me) && (mv.file == file - 1 || mv.file == file + 1)
                  && ValidCoordinate(mv.row, mv.file)
                  && g[mv.row][mv.file].Some? && g[mv.row][mv.file].value.colour != me)
  {
    var squares := PawnAttackSquares(row, file, me);
    PawnAttacksAreCaptures(g, squares, me, |squares|);
    assert squares[..|squares|] == squares;
  }

  /** validmovesPawn, as the source runs it. */
  method PawnCandidates(g: Grid, row: int, file: int, me: Colour) returns (r: Result<seq<Move>, Square>)
    requires IsGrid(g) && ValidCoordinate(row, file)
    ensures r == PawnMoves(g, row, file, me)
  {
    var distance := Forward(me);
    var starting := if me == White then row == 1 else row == 6;
    if !ValidCoordinate(row + distance, file) {
      return Err(Square(row + distance, file));   // getPiece throws
    }
    var validMoves := [];
    if g[row + distance][file].None? {
      validMoves := validMoves + [Move(row + distance, file, MoveOnly)];
      if starting && g[row + 2 * distance][file].None? {
        validMoves := validMoves + [Move(row + 2 * distance, file, MoveOnly)];
      }
    }
    assert validMoves == PawnAdvances(g, row, file, me);
    var coords := [];
    if file > 0 {
      coords := coords + [Square(row + distance, file - 1)];
    }
    if file < 7 {
      coords := coords + [Square(row + distance, file + 1)];
    }
    assert coords == PawnAttackSquares(row, file, me);
    var attacks := ScanPawnAttacks(g, coords, me);
    r := Ok(validMoves + attacks);
  }

  /** The attack loop of validmovesPawn: the listed squares, last first,
      each kept when a piece of the other colour stands on it. */
  method ScanPawnAttacks(g: Grid, coords: seq<Square>, me: Colour) returns (attacks: seq<Move>)
    requires IsGrid(g) && forall sq :: sq in coords ==> OnBoard(sq)
    ensures attacks == PawnAttacks(g, coords, me, |coords|)
  {
    attacks := [];
    var i := |coords|;
    while i > 0
      invariant 0 <= i <= |coords|
      invariant attacks + PawnAttacks(g, coords, me, i) == PawnAttacks(g, coords, me, |coords|)
    {
      i := i - 1;
      var sq := coords[i];
      assert OnBoard(sq) by { assert sq in coords; }
      var tmp := g[sq.row][sq.file];
      var found: seq<Move> := [];
      if tmp.Some? && tmp.value.colour != me {
        found := [Move(sq.row, sq.file, AttackOnly)];
      }
      PawnAttackStep(g, coords, me, i, found);
      AppendAssoc(attacks, found, PawnAttacks(g, coords, me, i));
      attacks := attacks + found;
    }
  }

  lemma PawnAttackStep(g: Grid, coords: seq<Square>, me: Colour, i: nat, found: seq<Move>)
    requires IsGrid(g) && i < |coords| && OnBoard(coords[i])
    requires var sq := coords[i];
             found == if g[sq.row][sq.file].Some? && g[sq.row][sq.file].value.colour != me
                      then [Move(sq.row, sq.file, AttackOnly)] else []
    ensures PawnAttacks(g, coords, me, i + 1) == found + PawnAttacks(g, coords, me, i)
  {
  }

  /** The one-step candidates `ms` left after removing every square the
      opposite colour attacks, in their original order. */
  function Unattacked(g: Grid, me: Colour, ms: seq<Move>): seq<Move> {
    if ms == [] then []
    else (if Attacker(g, ms[0].row, ms[0].file, Opposite(me)).Some? then [] else [ms[0]])
         + Unattacked(g, me, ms[1..])
  }

  /** validmovesKing: the queen's directions capped at distance 1, less
      every square squareIsAttacked reports for the other colour, on the
      board as it stands, with the king still on its own square. */
  function KingMoves(g: Grid, row: int, file: int, me: Colour): seq<Move>
    requires IsGrid(g)
  {
    Unattacked(g, me, Directions(g, row, file, me, QueenDirections, 1))
  }

  lemma {:induction false} UnattackedFilters(g: Grid, me: Colour, ms: seq<Move>)
    ensures forall mv :: mv in Unattacked(g, me, ms) <==> mv in ms && Attacker(g, mv.row, mv.file, Opposite(me)).None?
  {
    if ms != [] {
      UnattackedFilters(g, me, ms[1..]);
      assert ms == [ms[0]] + ms[1..];
    }
  }

  /** With maxDist 1 validateDirections lists exactly the neighbours along
      the given directions the piece can land on. */
  lemma OneStepListed(g: Grid, row: int, file: int, me: Colour, dirs: seq<(int, int)>)
    requires IsGrid(g)
    ensures forall mv :: mv in Directions(g, row, file, me, dirs, 1) <==>
              && mv.tag == Untagged
              && (exists i :: 0 <= i < |dirs| && mv.row == row + dirs[i].0 && mv.file == file + dirs[i].1)
              && Lands(g, me, mv.row, mv.file)
  {
    DirectionsListReachable(g, row, file, me, dirs, 1);
    forall mv: Move, i | 0 <= i < |dirs|
      ensures RayReaches(g, row, file, me, dirs[i], 1, 1, mv) <==>
                mv.tag == Untagged && mv.row == row + dirs[i].0 && mv.file == file + dirs[i].1 && Lands(g, me, mv.row, mv.file)
    {
      OneStepReaches(g, row, file, me, dirs[i], mv);
    }
  }

  lemma OneStepReaches(g: Grid, row: int, file: int, me: Colour, d: (int, int), mv: Move)
    ensures RayReaches(g, row, file, me, d, 1, 1, mv) <==>
              mv.tag == Untagged && mv.row == row + d.0 && mv.file == file + d.1 && Lands(g, me, mv.row, mv.file)
  {
    if mv.tag == Untagged && mv.row == row + d.0 && mv.file == file + d.1 && Lands(g, me, mv.row, mv.file) {
      assert ReachesFrom(g, row, file, me, d, 1, 1);
    }
  }

  /** The king's candidates are the squares one step away in the queen's
      eight directions that it can land on and that the other colour does
      not attack. */
  lemma KingMovesCharacterised(g: Grid, row: int, file: int, me: Colour)
    requires IsGrid(g)
    ensures forall mv :: mv in KingMoves(g, row, file, me) <==>
              && mv.tag == Untagged
              && (exists i :: 0 <= i < |QueenDirections| && mv.row == row + QueenDirections[i].0
                                                         && mv.file == file + QueenDirections[i].1)
              && Lands(g, me, mv.row, mv.file)
              && Attacker(g, mv.row, mv.file, Opposite(me)).None?
  {
    UnattackedFilters(g, me, Directions(g, row, file, me, QueenDirections, 1));
    OneStepListed(g, row, file, me, QueenDirections);
  }

  /** validmovesKing's filter, as the source runs it: from the last
      candidate to the first, splice out each attacked square. */
  method RemoveAttacked(g: Grid, me: Colour, candidates: seq<Move>) returns (validMoves: seq<Move>)
    ensures validMoves == Unattacked(g, me, candidates)
  {
    validMoves := candidates;
    var m := |candidates|;
    assert candidates[m..] == [];
    while m > 0
      invariant 0 <= m <= |candidates|
      invariant validMoves == candidates[..m] + Unattacked(g, me, candidates[m..])
    {
      m := m - 1;
      var rest := Unattacked(g, me, candidates[m + 1..]);
      UnattackedStep(g, me, candidates, m);
      SpliceStep(candidates, m, rest);
      var attacker := SquareIsAttacked(g, validMoves[m].row, validMoves[m].file, Opposite(me));
      if attacker.Some? {
        validMoves := validMoves[..m] + validMoves[m + 1..];
      }
    }
  }

  lemma UnattackedStep(g: Grid, me: Colour, candidates: seq<Move>, m: nat)
    requires m < |candidates|
    ensures Unattacked(g, me, candidates[m..])
            == (if Attacker(g, candidates[m].row, candidates[m].file, Opposite(me)).Some? then [] else [candidates[m]])
               + Unattacked(g, me, candidates[m + 1..])
  {
    assert candidates[m..][0] == candidates[m] && candidates[m..][1..] == candidates[m + 1..];
  }

  /** The list the splice loop holds before visiting candidate m, and what
      keeping or removing that candidate leaves. */
  lemma SpliceStep<T>(c: seq<T>, m: nat, rest: seq<T>)
    requires m < |c|
    ensures var v := c[..m + 1] + rest;
            && v[m] == c[m]
            && v[..m] + v[m + 1..] == c[..m] + ([] + rest)
            && v == c[..m] + ([c[m]] + rest)
  {
    var v := c[..m + 1] + rest;
    assert v[..m] == c[..m];
    assert v[m + 1..] == rest;
    assert c[..m + 1] == c[..m] + [c[m]];
  }

  /** validMoves: the generator of the piece's kind. The source's default
      branch ('Unknown piece') cannot be reached: a piece's kind is one of
      the six, as init guarantees. */
  function ValidMoves(g: Grid, p: Piece, at: Square): Result<seq<Move>, Square>
    requires IsGrid(g) && OnBoard(at)
  {
    match p.kind
    case Pawn => PawnMoves(g, at.row, at.file, p.colour)
    case Knight => Ok(KnightTargets(g, at.row, at.file, p.colour, |KnightMoves|))
    case Bishop => Ok(Directions(g, at.row, at.file, p.colour, BishopDirections, 8))
    case Rook => Ok(Directions(g, at.row, at.file, p.colour, RookDirections, 8))
    case Queen => Ok(Directions(g, at.row, at.file, p.colour, QueenDirections, 8))
    case King => Ok(KingMoves(g, at.row, at.file, p.colour))
  }

  /** validMoves, as the source runs it. */
  method Candidates(g: Grid, p: Piece, at: Square) returns (r: Result<seq<Move>, Square>)
    requires IsGrid(g) && OnBoard(at)
    ensures r == ValidMoves(g, p, at)
  {
    match p.kind {
      case Pawn =>
        r := PawnCandidates(g, at.row, at.file, p.colour);
      case Knight =>
        var ms := KnightCandidates(g, at.row, at.file, p.colour);
        r := Ok(ms);
      case Bishop =>
        var ms := ValidateDirections(g, at.row, at.file, p.colour, BishopDirections, 8);
        r := Ok(ms);
      case Rook =>
        var ms := ValidateDirections(g, at.row, at.file, p.colour, RookDirections, 8);
        r := Ok(ms);
      case Queen =>
        var ms := ValidateDirections(g, at.row, at.file, p.colour, QueenDirections, 8);
        r := Ok(ms);
      case King =>
        var ms := ValidateDirections(g, at.row, at.file, p.colour, QueenDirections, 1);
        ms := RemoveAttacked(g, p.colour, ms);
        r := Ok(ms);
    }
  }

  /** Every candidate of a piece that is not a pawn is untagged and lies on
      the board; a pawn's candidates are all tagged. */
  lemma CandidatesOnBoard(g: Grid, p: Piece, at: Square)
    requires IsGrid(g) && OnBoard(at)
    ensures ValidMoves(g, p, at).Ok? ==> forall mv :: mv in ValidMoves(g, p, at).value ==>
              && ValidCoordinate(mv.row, mv.file)
              && (p.kind == Pawn <==> mv.tag != Untagged)
  {
    match p.kind
    case Pawn => PawnMovesCharacterised(g, at.row, at.file, p.colour);
    case Knight => KnightTargetsAreJumps(g, at.row, at.file, p.colour, |KnightMoves|);
    case Bishop => DirectionsListReachable(g, at.row, at.file, p.colour, BishopDirections, 8);
    case Rook => DirectionsListReachable(g, at.row, at.file, p.colour, RookDirections, 8);
    case Queen => DirectionsListReachable(g, at.row, at.file, p.colour, QueenDirections, 8);
    case King => KingMovesCharacterised(g, at.row, at.file, p.colour);
  }

  /** Every candidate of a piece is a square it can land on: on the board,
      and empty or held by the other colour. */
  lemma CandidatesLand(g: Grid, p: Piece, at: Square)
    requires IsGrid(g) && OnBoard(at)
    ensures ValidMoves(g, p, at).Ok? ==> forall mv :: mv in ValidMoves(g, p, at).value ==> Lands(g, p.colour, mv.row, mv.file)
  {
    match p.kind
    case Pawn => PawnMovesCharacterised(g, at.row, at.file, p.colour);
    case Knight => KnightTargetsAreJumps(g, at.row, at.file, p.colour, |KnightMoves|);
    case Bishop => SlidesLand(g, at, p.colour, BishopDirections, 8);
    case Rook => SlidesLand(g, at, p.colour, RookDirections, 8);
    case Queen => SlidesLand(g, at, p.colour, QueenDirections, 8);
    case King => KingMovesCharacterised(g, at.row, at.file, p.colour);
  }

  lemma SlidesLand(g: Grid, at: Square, me: Colour, dirs: seq<(int, int)>, maxDist: int)
    requires IsGrid(g)
    ensures forall mv :: mv in Directions(g, at.row, at.file, me, dirs, maxDist) ==> Lands(g, me, mv.row, mv.file)
  {
    DirectionsListReachable(g, at.row, at.file, me, dirs, maxDist);
    forall mv | mv in Directions(g, at.row, at.file, me, dirs, maxDist) ensures Lands(g, me, mv.row, mv.file) {
      var i :| 0 <= i < |dirs| && RayReaches(g, at.row, at.file, me, dirs[i], 1, maxDist, mv);
      var k :| 1 <= k <= maxDist && mv.row == at.row + dirs[i].0 * k && mv.file == at.file + dirs[i].1 * k
               && ReachesFrom(g, at.row, at.file, me, dirs[i], 1, k);
    }
  }
}
