/** What a ChessBoard (js/board.js) knows about its pieces, as a value:
    the grid, the `pieces` registry, the `kings` table, every ChessPiece
    object made so far together with the row and file it holds, and
    piece_id_counter. setPiece and the piece creation in parseFENRow are
    stated here as functions on this value, and the board's methods are
    proved to follow them. */
module BoardState {
  import opened Wrappers
  import opened Coords
  import opened Pieces
  import opened Attack
  import opened Fen

  /** `registry` maps an id to its piece, or to None once the piece has
      been captured (the source stores false); `created[s]` is the object
      with serial s and `places[s]` its row and file (None once both were
      set to false). */
  datatype Setup = Setup(grid: Grid, registry: map<nat, Option<Piece>>, kings: map<Colour, Piece>,
                         created: seq<Piece>, places: seq<Option<Square>>, counter: nat)

  /** An 8×8 grid, and a recorded square for every object. */
  predicate Tabled(st: Setup) {
    IsGrid(st.grid) && |st.places| == |st.created|
  }

  /** `p` is one of the objects the board made, exactly as it made it. */
  predicate IsObject(st: Setup, p: Piece) {
    p.serial < |st.created| && st.created[p.serial] == p
  }

  /** The structural invariant: an 8×8 grid; every object well formed and
      holding an on-board square or none; each piece on the grid records
      the square it stands on; registry entries sit under their own id;
      each kings entry is a king of its own colour. */
  predicate Sound(st: Setup) {
    && Tabled(st)
    && (forall s :: 0 <= s < |st.created| ==> st.created[s].serial == s && WellFormed(st.created[s]))
    && (forall s :: 0 <= s < |st.places| && st.places[s].Some? ==> OnBoard(st.places[s].value))
    && (forall r, f :: 0 <= r < 8 && 0 <= f < 8 && st.grid[r][f].Some? ==>
          IsObject(st, st.grid[r][f].value) && st.places[st.grid[r][f].value.serial] == Some(Square(r, f)))
    && (forall id :: id in st.registry && st.registry[id].Some? ==>
          IsObject(st, st.registry[id].value) && st.registry[id].value.id == id)
    && (forall c :: c in st.kings ==> IsObject(st, st.kings[c]) && st.kings[c].colour == c && st.kings[c].kind == King)
  }

  /** Soundness does not depend on the id counter. */
  lemma CounterFree(st: Setup, n: nat)
    requires Sound(st)
    ensures Sound(st.(counter := n))
  {
    var b := st.(counter := n);
    assert b.grid == st.grid && b.registry == st.registry && b.kings == st.kings;
    assert b.created == st.created && b.places == st.places;
  }

  /** `p` stands on the grid, on the square it records. */
  predicate OnGrid(st: Setup, p: Piece)
    requires Sound(st)
  {
    && p.serial < |st.places| && st.places[p.serial].Some?
    && st.grid[st.places[p.serial].value.row][st.places[p.serial].value.file] == Some(p)
  }

  /** Grid and registry agree: every piece on the grid has an id below the
      counter and is registered under it, and every id below the counter
      is registered, to a piece on the grid or to None. Entries at or
      above the counter are left over from an earlier load. */
  predicate Agree(st: Setup)
    requires Sound(st)
  {
    && (forall r, f :: 0 <= r < 8 && 0 <= f < 8 && st.grid[r][f].Some? ==>
          && st.grid[r][f].value.id < st.counter
          && st.grid[r][f].value.id in st.registry && st.registry[st.grid[r][f].value.id] == st.grid[r][f])
    && (forall id :: 0 <= id < st.counter ==>
          id in st.registry && (st.registry[id].Some? ==> OnGrid(st, st.registry[id].value)))
  }

  /** The letters on the grid, as a FEN placement. */
  function Letters(g: Grid): (p: Placement)
    ensures |p| == |g| && forall r :: 0 <= r < |g| ==> |p[r]| == |g[r]|
  {
    seq(|g|, r requires 0 <= r < |g| =>
      seq(|g[r]|, f requires 0 <= f < |g[r]| => if g[r][f].Some? then Some(g[r][f].value.letter) else None))
  }

  /** The letters of a sound board form a placement: eight rows of eight
      squares, each empty or holding a letter init accepts. */
  lemma LettersArePlacement(st: Setup)
    requires Sound(st)
    ensures IsPlacement(Letters(st.grid))
  {
    var l := Letters(st.grid);
    forall r | 0 <= r < 8 ensures |l[r]| == 8 && LettersValid(l[r]) {
      forall f | 0 <= f < 8 && l[r][f].Some? ensures IsPieceLetter(l[r][f].value) {
        WellFormedShape(st.grid[r][f].value);
      }
    }
  }

  // ------------------------------------------------------------ setPiece

  /** setPiece(piece, row, file): the square takes `piece` (or is emptied
      when there is none); the piece's previous square, if it holds one,
      is then emptied, and the piece records the new square and is
      registered under its id; finally whatever stood on the square
      records no square and its registry entry becomes None. */
  function Put(st: Setup, piece: Option<Piece>, row: int, file: int): (r: Setup)
    requires Sound(st) && ValidCoordinate(row, file)
    requires piece.Some? ==> IsObject(st, piece.value)
  {
    var prior := st.grid[row][file];
    var g1 := st.grid[row := st.grid[row][file := piece]];
    var st1 :=
      if piece.None? then st.(grid := g1)
      else
        var p := piece.value;
        var g2 := if st.places[p.serial].None? then g1
                  else var sq := st.places[p.serial].value; g1[sq.row := g1[sq.row][sq.file := None]];
        st.(grid := g2, places := st.places[p.serial := Some(Square(row, file))], registry := st.registry[p.id := piece]);
    if prior.None? then st1
    else st1.(places := st1.places[prior.value.serial := None], registry := st1.registry[prior.value.id := None])
  }

  /** The square (r, f) after setPiece(piece, row, file). */
  function PutCell(st: Setup, piece: Option<Piece>, row: int, file: int, r: int, f: int): Option<Piece>
    requires Sound(st) && 0 <= r < 8 && 0 <= f < 8
    requires piece.Some? ==> IsObject(st, piece.value)
  {
    if piece.Some? && st.places[piece.value.serial] == Some(Square(r, f)) then None
    else if r == row && f == file then piece
    else st.grid[r][f]
  }

  lemma PutGrid(st: Setup, piece: Option<Piece>, row: int, file: int)
    requires Sound(st) && ValidCoordinate(row, file)
    requires piece.Some? ==> IsObject(st, piece.value)
    ensures IsGrid(Put(st, piece, row, file).grid)
    ensures forall r, f :: 0 <= r < 8 && 0 <= f < 8 ==>
              Put(st, piece, row, file).grid[r][f] == PutCell(st, piece, row, file, r, f)
  {
  }

  /** The object serial s records after setPiece(piece, row, file). */
  function PutPlace(st: Setup, piece: Option<Piece>, row: int, file: int, s: nat): Option<Square>
    requires Sound(st) && ValidCoordinate(row, file) && s < |st.places|
  {
    var prior := st.grid[row][file];
    if prior.Some? && s == prior.value.serial then None
    else if piece.Some? && s == piece.value.serial then Some(Square(row, file))
    else st.places[s]
  }

  lemma PutPlaces(st: Setup, piece: Option<Piece>, row: int, file: int)
    requires Sound(st) && ValidCoordinate(row, file)
    requires piece.Some? ==> IsObject(st, piece.value)
    ensures |Put(st, piece, row, file).places| == |st.places|
    ensures forall s :: 0 <= s < |st.places| ==> Put(st, piece, row, file).places[s] == PutPlace(st, piece, row, file, s)
  {
  }

  /** The registry entry under id after setPiece(piece, row, file). */
  lemma PutRegistry(st: Setup, piece: Option<Piece>, row: int, file: int)
    requires Sound(st) && ValidCoordinate(row, file)
    requires piece.Some? ==> IsObject(st, piece.value)
    ensures var prior := st.grid[row][file];
            var reg := if piece.Some? then st.registry[piece.value.id := piece] else st.registry;
            Put(st, piece, row, file).registry == if prior.Some? then reg[prior.value.id := None] else reg
  {
  }

  /** setPiece keeps the structural invariant, and leaves the kings, the
      objects and the counter alone. */
  lemma PutKeepsSound(st: Setup, piece: Option<Piece>, row: int, file: int)
    requires Sound(st) && ValidCoordinate(row, file)
    requires piece.Some? ==> IsObject(st, piece.value)
    ensures Sound(Put(st, piece, row, file))
    ensures Put(st, piece, row, file).kings == st.kings
    ensures Put(st, piece, row, file).created == st.created
    ensures Put(st, piece, row, file).counter == st.counter
  {
    var r := Put(st, piece, row, file);
    PutGrid(st, piece, row, file);
    PutPlaces(st, piece, row, file);
    PutRegistry(st, piece, row, file);
    forall rr, ff | 0 <= rr < 8 && 0 <= ff < 8 && r.grid[rr][ff].Some?
      ensures IsObject(r, r.grid[rr][ff].value) && r.places[r.grid[rr][ff].value.serial] == Some(Square(rr, ff))
    {
      PutCellRecorded(st, piece, row, file, rr, ff);
    }
  }

  /** A piece standing on a square after setPiece records that square. */
  lemma PutCellRecorded(st: Setup, piece: Option<Piece>, row: int, file: int, r: int, f: int)
    requires Sound(st) && ValidCoordinate(row, file) && 0 <= r < 8 && 0 <= f < 8
    requires piece.Some? ==> IsObject(st, piece.value)
    requires PutCell(st, piece, row, file, r, f).Some?
    ensures var x := PutCell(st, piece, row, file, r, f).value;
            IsObject(st, x) && PutPlace(st, piece, row, file, x.serial) == Some(Square(r, f))
  {
    var x := PutCell(st, piece, row, file, r, f).value;
    var prior := st.grid[row][file];
    if r == row && f == file && piece.Some? && !(st.places[piece.value.serial] == Some(Square(r, f))) {
      assert x == piece.value;
    } else {
      assert x == st.grid[r][f].value;
    }
  }

  /** Moving a piece from the square it stands on to another square: the
      destination holds it, the origin is empty and every other square is
      as before; the piece records the destination, a piece captured
      there records no square, and every other object keeps its square. */
  lemma PutMoves(st: Setup, p: Piece, from: Square, to: Square)
    requires Sound(st) && OnBoard(from) && OnBoard(to) && from != to
    requires st.grid[from.row][from.file] == Some(p)
    ensures var r := Put(st, Some(p), to.row, to.file);
            forall rr, ff :: 0 <= rr < 8 && 0 <= ff < 8 ==>
              r.grid[rr][ff] == if Square(rr, ff) == to then Some(p)
                                else if Square(rr, ff) == from then None
                                else st.grid[rr][ff]
    ensures var r := Put(st, Some(p), to.row, to.file);
            var captured := st.grid[to.row][to.file];
            && |r.places| == |st.places|
            && (captured.Some? ==> captured.value.serial != p.serial)
            && forall s :: 0 <= s < |st.places| ==>
                 r.places[s] == if captured.Some? && s == captured.value.serial then None
                                else if s == p.serial then Some(to)
                                else st.places[s]
  {
    PutGrid(st, Some(p), to.row, to.file);
    PutPlaces(st, Some(p), to.row, to.file);
    assert st.places[p.serial] == Some(from);
  }

  /** A move keeps grid and registry in agreement; the mover stays
      registered under its id and a captured piece's entry becomes None. */
  lemma PutMoveAgrees(st: Setup, p: Piece, from: Square, to: Square)
    requires Sound(st) && Agree(st) && OnBoard(from) && OnBoard(to) && from != to
    requires st.grid[from.row][from.file] == Some(p)
    ensures Sound(Put(st, Some(p), to.row, to.file))
    ensures Agree(Put(st, Some(p), to.row, to.file))
    ensures var r := Put(st, Some(p), to.row, to.file);
            var captured := st.grid[to.row][to.file];
            && (captured.Some? ==> captured.value.id != p.id && r.registry == st.registry[captured.value.id := None])
            && (captured.None? ==> r.registry == st.registry)
  {
    var r := Put(st, Some(p), to.row, to.file);
    PutKeepsSound(st, Some(p), to.row, to.file);
    MoveRegistry(st, p, from, to);
    forall rr, ff | 0 <= rr < 8 && 0 <= ff < 8 && r.grid[rr][ff].Some?
      ensures && r.grid[rr][ff].value.id < r.counter
              && r.grid[rr][ff].value.id in r.registry && r.registry[r.grid[rr][ff].value.id] == r.grid[rr][ff]
    {
      MoveKeepsRegistered(st, p, from, to, rr, ff);
    }
    forall id | 0 <= id < r.counter
      ensures id in r.registry && (r.registry[id].Some? ==> OnGrid(r, r.registry[id].value))
    {
      if r.registry[id].Some? && id != p.id {
        MoveLeavesOthers(st, p, from, to, id);
      } else if r.registry[id].Some? {
        PutMoves(st, p, from, to);
      }
    }
  }

  lemma MoveRegistry(st: Setup, p: Piece, from: Square, to: Square)
    requires Sound(st) && Agree(st) && OnBoard(from) && OnBoard(to) && from != to
    requires st.grid[from.row][from.file] == Some(p)
    ensures var r := Put(st, Some(p), to.row, to.file);
            var captured := st.grid[to.row][to.file];
            && (captured.Some? ==> captured.value.id != p.id && r.registry == st.registry[captured.value.id := None])
            && (captured.None? ==> r.registry == st.registry)
  {
    PutRegistry(st, Some(p), to.row, to.file);
    assert st.registry[p.id] == Some(p);
    assert st.registry[p.id := Some(p)] == st.registry;
    var captured := st.grid[to.row][to.file];
    if captured.Some? {
      DistinctIds(st, from, to);
    }
  }

  /** Two pieces on different squares have different ids. */
  lemma DistinctIds(st: Setup, a: Square, b: Square)
    requires Sound(st) && Agree(st) && OnBoard(a) && OnBoard(b) && a != b
    requires st.grid[a.row][a.file].Some? && st.grid[b.row][b.file].Some?
    ensures st.grid[a.row][a.file].value.id != st.grid[b.row][b.file].value.id
  {
    var x := st.grid[a.row][a.file].value;
    var y := st.grid[b.row][b.file].value;
    assert st.registry[x.id] == Some(x);
    assert st.registry[y.id] == Some(y);
    assert st.places[x.serial] == Some(a);
    assert st.places[y.serial] == Some(b);
  }

  /** After a move every piece on the grid is still registered under its id. */
  lemma MoveKeepsRegistered(st: Setup, p: Piece, from: Square, to: Square, rr: int, ff: int)
    requires Sound(st) && Agree(st) && OnBoard(from) && OnBoard(to) && from != to
    requires st.grid[from.row][from.file] == Some(p)
    requires 0 <= rr < 8 && 0 <= ff < 8
    requires IsGrid(Put(st, Some(p), to.row, to.file).grid)
    requires Put(st, Some(p), to.row, to.file).grid[rr][ff].Some?
    ensures var r := Put(st, Some(p), to.row, to.file);
            && r.grid[rr][ff].value.id < r.counter
            && r.grid[rr][ff].value.id in r.registry && r.registry[r.grid[rr][ff].value.id] == r.grid[rr][ff]
  {
    PutMoves(st, p, from, to);
    MoveRegistry(st, p, from, to);
    var captured := st.grid[to.row][to.file];
    if Square(rr, ff) != to {
      var x := st.grid[rr][ff].value;
      assert st.registry[x.id] == Some(x);
      if captured.Some? {
        DistinctIds(st, Square(rr, ff), to);
      }
    } else {
      assert st.registry[p.id] == Some(p);
    }
  }

  /** A registered piece other than the mover and the captured piece keeps
      its square through a move. */
  lemma MoveLeavesOthers(st: Setup, p: Piece, from: Square, to: Square, id: nat)
    requires Sound(st) && Agree(st) && OnBoard(from) && OnBoard(to) && from != to
    requires st.grid[from.row][from.file] == Some(p)
    requires id < st.counter && id != p.id && id in st.registry && st.registry[id].Some?
    requires var captured := st.grid[to.row][to.file]; captured.Some? ==> id != captured.value.id
    ensures Sound(Put(st, Some(p), to.row, to.file))
    ensures OnGrid(Put(st, Some(p), to.row, to.file), st.registry[id].value)
  {
    PutKeepsSound(st, Some(p), to.row, to.file);
    PutMoves(st, p, from, to);
    var y := st.registry[id].value;
    var sq := st.places[y.serial].value;
    assert st.grid[sq.row][sq.file] == Some(y);
  }

  // ----------------------------------------------------------- loadFEN

  /** A piece letter parseFENRow meets at a square of the board. */
  datatype Occupant = Occupant(at: Square, letter: char)

  predicate OccupantsValid(items: seq<Occupant>) {
    forall k :: 0 <= k < |items| ==> OnBoard(items[k].at) && IsPieceLetter(items[k].letter)
  }

  /** parseFENRow meeting letter c at (row, file): a new ChessPiece with
      the next id and the next serial, recording (row, file); the square
      takes it, the registry holds it under its id, and a king becomes
      the kings entry of its colour. */
  function AddPiece(st: Setup, x: Occupant): (r: Setup)
    requires Tabled(st) && OnBoard(x.at) && IsPieceLetter(x.letter)
    ensures Tabled(r)
  {
    var p := Init(x.letter, st.counter, |st.created|).value;
    Setup(st.grid[x.at.row := st.grid[x.at.row][x.at.file := Some(p)]],
          st.registry[p.id := Some(p)],
          if p.kind == King then st.kings[p.colour := p] else st.kings,
          st.created + [p], st.places + [Some(x.at)], st.counter + 1)
  }

  lemma AddPieceKeepsSound(st: Setup, x: Occupant)
    requires Sound(st) && OnBoard(x.at) && IsPieceLetter(x.letter)
    ensures Sound(AddPiece(st, x))
  {
    var r := AddPiece(st, x);
    var p := Init(x.letter, st.counter, |st.created|).value;
    assert r.created[p.serial] == p;
    forall id | id in r.registry && r.registry[id].Some?
      ensures IsObject(r, r.registry[id].value) && r.registry[id].value.id == id
    {
      if id != p.id {
        assert IsObject(st, st.registry[id].value);
      }
    }
  }

  /** The pieces parseFENRow creates for `items`, one after another. */
  function AddAll(st: Setup, items: seq<Occupant>): (r: Setup)
    requires Tabled(st) && OccupantsValid(items)
    ensures Tabled(r)
    ensures |r.created| == |st.created| + |items| && r.counter == st.counter + |items|
    decreases |items|
  {
    if items == [] then st
    else
      var front := items[..|items| - 1];
      assert OccupantsValid(front) by {
        assert forall k :: 0 <= k < |front| ==> front[k] == items[k];
      }
      AddPiece(AddAll(st, front), items[|items| - 1])
  }

  lemma {:induction false} AddAllKeepsSound(st: Setup, items: seq<Occupant>)
    requires Sound(st) && OccupantsValid(items)
    ensures Sound(AddAll(st, items))
    decreases |items|
  {
    if items != [] {
      var front := items[..|items| - 1];
      assert OccupantsValid(front) by {
        assert forall k :: 0 <= k < |front| ==> front[k] == items[k];
      }
      AddAllKeepsSound(st, front);
      AddPieceKeepsSound(AddAll(st, front), items[|items| - 1]);
    }
  }

  /** Square a comes before square b in FEN text order: a higher row, or
      the same row and a lower file. */
  predicate Before(a: Square, b: Square) {
    a.row > b.row || (a.row == b.row && a.file < b.file)
  }

  predicate InTextOrder(items: seq<Occupant>) {
    forall i, j :: 0 <= i < j < |items| ==> Before(items[i].at, items[j].at)
  }

  /** The letters parseFENRow places in row `row` when the scan has filled
      `cells`, left to right; squares past file 7 take no piece. */
  function RowOrder(row: int, cells: seq<Option<char>>): seq<Occupant>
    decreases |cells|
  {
    if cells == [] then []
    else
      var f := |cells| - 1;
      RowOrder(row, cells[..f]) + (if cells[f].Some? && f < 8 then [Occupant(Square(row, f), cells[f].value)] else [])
  }

  /** The letters loadFEN places for rows base + |q| - 1 down to base,
      where q[i] is the content of row base + i: the highest row first,
      each row left to right. */
  function Upper(q: seq<seq<Option<char>>>, base: int): seq<Occupant>
    decreases |q|
  {
    if q == [] then [] else Upper(q[1..], base + 1) + RowOrder(base, q[0])
  }

  /** Every letter of a placement in the order loadFEN meets it: rank 8
      (row 7) first, each rank from file a to file h. */
  function TextOrder(p: Placement): seq<Occupant> {
    Upper(p, 0)
  }

  /** The row lists exactly its letters on files 0..7. */
  lemma {:induction false} RowOrderMembers(row: int, cells: seq<Option<char>>)
    ensures forall x :: x in RowOrder(row, cells) <==> RowHolds(row, cells, x)
    decreases |cells|
  {
    if cells != [] {
      var f := |cells| - 1;
      var front := cells[..f];
      RowOrderMembers(row, front);
      forall x ensures RowHolds(row, cells, x) <==> RowHolds(row, front, x) || (x.at == Square(row, f) && f < 8 && cells[f] == Some(x.letter)) {
      }
    }
  }

  predicate RowHolds(row: int, cells: seq<Option<char>>, x: Occupant) {
    x.at.row == row && 0 <= x.at.file < 8 && x.at.file < |cells| && cells[x.at.file] == Some(x.letter)
  }

  /** The row lists its letters from left to right. */
  lemma {:induction false} RowOrderSorted(row: int, cells: seq<Option<char>>)
    ensures InTextOrder(RowOrder(row, cells))
    decreases |cells|
  {
    if cells != [] {
      var f := |cells| - 1;
      var front := cells[..f];
      RowOrderSorted(row, front);
      RowOrderMembers(row, front);
      var a := RowOrder(row, front);
      var b := if cells[f].Some? && f < 8 then [Occupant(Square(row, f), cells[f].value)] else [];
      forall x, y | x in a && y in b ensures Before(x.at, y.at) {
        assert RowHolds(row, front, x);
      }
      JoinInTextOrder(a, b);
    }
  }

  /** Every entry of a row is a piece letter on the board. */
  lemma RowOrderValid(row: int, cells: seq<Option<char>>)
    requires 0 <= row < 8 && LettersValid(cells)
    ensures OccupantsValid(RowOrder(row, cells))
  {
    RowOrderMembers(row, cells);
    var items := RowOrder(row, cells);
    forall k | 0 <= k < |items| ensures OnBoard(items[k].at) && IsPieceLetter(items[k].letter) {
      assert RowHolds(row, cells, items[k]);
    }
  }

  lemma JoinInTextOrder(a: seq<Occupant>, b: seq<Occupant>)
    requires InTextOrder(a) && InTextOrder(b)
    requires forall x, y :: x in a && y in b ==> Before(x.at, y.at)
    ensures InTextOrder(a + b)
  {
    forall i, j | 0 <= i < j < |a + b| ensures Before((a + b)[i].at, (a + b)[j].at) {
      if i < |a| && j >= |a| {
        assert (a + b)[i] in a && (a + b)[j] in b;
      }
    }
  }

  predicate UpperHolds(q: seq<seq<Option<char>>>, base: int, x: Occupant) {
    base <= x.at.row < base + |q| && RowHolds(x.at.row, q[x.at.row - base], x)
  }

  lemma {:induction false} UpperMembers(q: seq<seq<Option<char>>>, base: int)
    ensures forall x :: x in Upper(q, base) <==> UpperHolds(q, base, x)
    decreases |q|
  {
    if q != [] {
      UpperMembers(q[1..], base + 1);
      RowOrderMembers(base, q[0]);
      forall x ensures UpperHolds(q, base, x) <==> UpperHolds(q[1..], base + 1, x) || RowHolds(base, q[0], x) {
        if base + 1 <= x.at.row < base + |q| {
          assert q[1..][x.at.row - (base + 1)] == q[x.at.row - base];
        }
      }
    }
  }

  lemma {:induction false} UpperSorted(q: seq<seq<Option<char>>>, base: int)
    ensures InTextOrder(Upper(q, base))
    decreases |q|
  {
    if q != [] {
      UpperSorted(q[1..], base + 1);
      RowOrderSorted(base, q[0]);
      UpperMembers(q[1..], base + 1);
      RowOrderMembers(base, q[0]);
      var a := Upper(q[1..], base + 1);
      var b := RowOrder(base, q[0]);
      forall x, y | x in a && y in b ensures Before(x.at, y.at) {
        assert UpperHolds(q[1..], base + 1, x) && RowHolds(base, q[0], y);
      }
      JoinInTextOrder(a, b);
    }
  }

  lemma UpperValid(q: seq<seq<Option<char>>>, base: int)
    requires 0 <= base && base + |q| <= 8
    requires forall i :: 0 <= i < |q| ==> LettersValid(q[i])
    ensures OccupantsValid(Upper(q, base))
  {
    UpperMembers(q, base);
    var items := Upper(q, base);
    forall k | 0 <= k < |items| ensures OnBoard(items[k].at) && IsPieceLetter(items[k].letter) {
      assert UpperHolds(q, base, items[k]);
      assert LettersValid(q[items[k].at.row - base]);
    }
  }

  /** loadFEN meets the letters of a placement in text order, each once:
      an entry is listed exactly when its square holds its letter. */
  /** The entries of a placement's text order are valid and in order. */
  lemma TextOrderValid(p: Placement)
    requires IsPlacement(p)
    ensures InTextOrder(TextOrder(p)) && OccupantsValid(TextOrder(p))
  {
    TextOrderLists(p);
  }

  lemma TextOrderLists(p: Placement)
    requires IsPlacement(p)
    ensures forall x :: x in TextOrder(p) <==> OnBoard(x.at) && p[x.at.row][x.at.file] == Some(x.letter)
    ensures InTextOrder(TextOrder(p)) && OccupantsValid(TextOrder(p))
  {
    UpperMembers(p, 0);
    UpperSorted(p, 0);
    UpperValid(p, 0);
  }

  predicate Named(q: Piece, letter: char, id: nat, serial: nat) {
    q.letter == letter && q.id == id && q.serial == serial
  }

  /** The squares the pieces created for `items` record. */
  function Spots(items: seq<Occupant>): (spots: seq<Option<Square>>)
    ensures |spots| == |items| && forall k :: 0 <= k < |items| ==> spots[k] == Some(items[k].at)
  {
    seq(|items|, k requires 0 <= k < |items| => Some(items[k].at))
  }

  /** The k-th of them records the k-th square. */
  lemma {:induction false} AddAllSpots(st: Setup, items: seq<Occupant>)
    requires Tabled(st) && OccupantsValid(items)
    ensures AddAll(st, items).places == st.places + Spots(items)
    decreases |items|
  {
    if items != [] {
      var n := |items| - 1;
      var front := items[..n];
      assert OccupantsValid(front) by {
        assert forall k :: 0 <= k < |front| ==> front[k] == items[k];
      }
      AddAllSpots(st, front);
      AddPieceAppends(AddAll(st, front), items[n]);
      assert Spots(items) == Spots(front) + [Some(items[n].at)];
    }
  }

  lemma AddPieceAppends(st: Setup, x: Occupant)
    requires Tabled(st) && OnBoard(x.at) && IsPieceLetter(x.letter)
    ensures var r := AddPiece(st, x);
            && r.created == st.created + [Init(x.letter, st.counter, |st.created|).value]
            && r.places == st.places + [Some(x.at)]
  {
  }

  /** The registry gains the new pieces under ids counter, counter + 1, …
      and keeps every other entry. */
  lemma {:induction false} AddAllEntry(st: Setup, items: seq<Occupant>, id: int)
    requires Tabled(st) && OccupantsValid(items)
    ensures var r := AddAll(st, items);
            && (id in r.registry <==> id in st.registry || st.counter <= id < st.counter + |items|)
            && (id in r.registry ==>
                  r.registry[id] == if st.counter <= id < st.counter + |items| then Some(r.created[|st.created| + id - st.counter])
                                    else st.registry[id])
    decreases |items|
  {
    if items != [] {
      var front := items[..|items| - 1];
      assert OccupantsValid(front) by {
        assert forall k :: 0 <= k < |front| ==> front[k] == items[k];
      }
      AddAllEntry(st, front, id);
      var mid := AddAll(st, front);
      var x := items[|items| - 1];
      AddPieceAppends(mid, x);
      var p := Init(x.letter, mid.counter, |mid.created|).value;
      var r := AddAll(st, items);
      assert r == AddPiece(mid, x);
      assert r.registry == mid.registry[mid.counter := Some(p)];
      assert r.created == mid.created + [p];
    }
  }

  /** The id handed to the k-th of `items`, on a board whose counter is
      zero, is registered to the k-th piece made. */
  lemma RegisteredAt(st: Setup, items: seq<Occupant>, k: int)
    requires Tabled(st) && OccupantsValid(items) && st.counter == 0 && 0 <= k < |items|
    ensures var r := AddAll(st, items);
            k in r.registry && |r.created| == |st.created| + |items| && r.registry[k] == Some(r.created[|st.created| + k])
  {
    AddAllEntry(st, items, k);
  }

  /** Some entry of `items` is at square sq. */
  predicate Covers(items: seq<Occupant>, sq: Square) {
    exists k :: 0 <= k < |items| && items[k].at == sq
  }

  /** With every square met once, each square met holds the piece created
      for it. */
  lemma AddAllPlaces(st: Setup, items: seq<Occupant>)
    requires Tabled(st) && OccupantsValid(items) && InTextOrder(items)
    ensures var r := AddAll(st, items);
            forall k :: 0 <= k < |items| ==>
              r.grid[items[k].at.row][items[k].at.file] == Some(r.created[|st.created| + k])
  {
    forall k | 0 <= k < |items| {
      AddAllPlaceAt(st, items, k);
    }
  }

  /** The same for the k-th entry alone. */
  lemma {:induction false} AddAllPlaceAt(st: Setup, items: seq<Occupant>, k: int)
    requires Tabled(st) && OccupantsValid(items) && InTextOrder(items) && 0 <= k < |items|
    ensures var r := AddAll(st, items);
            r.grid[items[k].at.row][items[k].at.file] == Some(r.created[|st.created| + k])
    decreases |items|
  {
    var n := |items| - 1;
    var front := items[..n];
    assert OccupantsValid(front) && InTextOrder(front) by {
      assert forall k :: 0 <= k < |front| ==> front[k] == items[k];
    }
    var mid := AddAll(st, front);
    AddPieceAppends(mid, items[n]);
    if k < n {
      AddAllPlaceAt(st, front, k);
      assert front[k] == items[k] && Before(items[k].at, items[n].at);
    }
  }

  /** Every square no entry names keeps what it held. */
  lemma {:induction false} AddAllKeeps(st: Setup, items: seq<Occupant>)
    requires Tabled(st) && OccupantsValid(items)
    ensures var r := AddAll(st, items);
            forall rr, ff :: 0 <= rr < 8 && 0 <= ff < 8 && !Covers(items, Square(rr, ff)) ==> r.grid[rr][ff] == st.grid[rr][ff]
    decreases |items|
  {
    if items != [] {
      var n := |items| - 1;
      var front := items[..n];
      assert OccupantsValid(front) by {
        assert forall k :: 0 <= k < |front| ==> front[k] == items[k];
      }
      AddAllKeeps(st, front);
      var r := AddAll(st, items);
      forall rr, ff | 0 <= rr < 8 && 0 <= ff < 8 && !Covers(items, Square(rr, ff)) ensures r.grid[rr][ff] == st.grid[rr][ff] {
        assert items[n].at != Square(rr, ff);
        assert !Covers(front, Square(rr, ff)) by {
          forall k | 0 <= k < |front| ensures front[k].at != Square(rr, ff) {
            assert front[k] == items[k];
          }
        }
      }
    }
  }

  /** A sequence of entries met in two stretches is met as one. */
  lemma {:induction false} AddAllAppend(st: Setup, a: seq<Occupant>, b: seq<Occupant>)
    requires Tabled(st) && OccupantsValid(a) && OccupantsValid(b)
    ensures OccupantsValid(a + b)
    ensures AddAll(st, a + b) == AddAll(AddAll(st, a), b)
    decreases |b|
  {
    OccupantsJoin(a, b);
    if b == [] {
      assert a + b == a;
    } else {
      var n := |b| - 1;
      var front := b[..n];
      assert OccupantsValid(front) by {
        assert forall k :: 0 <= k < n ==> front[k] == b[k];
      }
      AddAllAppend(st, a, front);
      SnocSplit(a, b);
      AddAllSnoc(st, a + front, b[n]);
      AddAllSnoc(AddAll(st, a), front, b[n]);
    }
  }

  lemma SnocSplit<T>(a: seq<T>, b: seq<T>)
    requires |b| > 0
    ensures b[..|b| - 1] + [b[|b| - 1]] == b && (a + b[..|b| - 1]) + [b[|b| - 1]] == a + b
  {
  }

  lemma OccupantsJoin(a: seq<Occupant>, b: seq<Occupant>)
    requires OccupantsValid(a) && OccupantsValid(b)
    ensures OccupantsValid(a + b)
  {
    forall k | 0 <= k < |a + b| ensures OnBoard((a + b)[k].at) && IsPieceLetter((a + b)[k].letter) {
      if k >= |a| {
        assert (a + b)[k] == b[k - |a|];
      }
    }
  }

  /** Meeting one more entry adds one more piece. */
  lemma AddAllSnoc(st: Setup, items: seq<Occupant>, x: Occupant)
    requires Tabled(st) && OccupantsValid(items) && OnBoard(x.at) && IsPieceLetter(x.letter)
    ensures OccupantsValid(items + [x])
    ensures AddAll(st, items + [x]) == AddPiece(AddAll(st, items), x)
  {
    assert forall k :: 0 <= k < |items| ==> (items + [x])[k] == items[k];
    assert (items + [x])[..|items|] == items;
  }

  /** A filled square adds one entry to its row, a blank square none. */
  lemma RowOrderSnoc(row: int, cells: seq<Option<char>>, x: Option<char>)
    ensures RowOrder(row, cells + [x]) ==
              RowOrder(row, cells) + if x.Some? && |cells| < 8 then [Occupant(Square(row, |cells|), x.value)] else []
  {
    assert (cells + [x])[..|cells|] == cells;
  }

  lemma {:induction false} RowOrderBlanks(row: int, cells: seq<Option<char>>, n: nat)
    ensures RowOrder(row, cells + Blanks(n)) == RowOrder(row, cells)
    decreases n
  {
    if n > 0 {
      BlanksSnoc(n - 1);
      RowOrderBlanks(row, cells, n - 1);
      var front := cells + Blanks(n - 1);
      assert cells + Blanks(n) == front + [None];
      RowOrderSnoc(row, front, None);
      assert RowOrder(row, front + [None]) == RowOrder(row, front) + [];
      assert RowOrder(row, front) + [] == RowOrder(row, front);
    } else {
      assert cells + Blanks(0) == cells;
    }
  }

  /** Rows below `base`, each listed after the rows above it. */
  lemma UpperCons(cells: seq<Option<char>>, q: seq<seq<Option<char>>>, base: int)
    ensures Upper([cells] + q, base) == Upper(q, base + 1) + RowOrder(base, cells)
  {
    assert ([cells] + q)[1..] == q;
  }

  // ------------------------------------------------- a placement loaded

  const EmptyRow: seq<Option<Piece>> := [None, None, None, None, None, None, None, None]

  /** The board loadFEN starts from: eight rows of eight empty squares. */
  const EmptyGrid: Grid := [EmptyRow, EmptyRow, EmptyRow, EmptyRow, EmptyRow, EmptyRow, EmptyRow, EmptyRow]

  /** loadFEN before its ranks: the counter is back at 0 and every square
      is empty; the registry, the kings and the objects made earlier stay. */
  function Cleared(st: Setup): (r: Setup)
    ensures IsGrid(r.grid) && forall rr, ff :: 0 <= rr < 8 && 0 <= ff < 8 ==> r.grid[rr][ff].None?
  {
    st.(grid := EmptyGrid, counter := 0)
  }

  /** The tables of a board before its first load: nothing made yet. */
  const Fresh: Setup := Setup(EmptyGrid, map[], map[], [], [], 0)

  lemma FreshSound()
    ensures Sound(Fresh) && Agree(Fresh)
  {
    forall r, f | 0 <= r < 8 && 0 <= f < 8 ensures EmptyGrid[r][f] == None {
      assert EmptyGrid[r] == EmptyRow;
    }
  }

  lemma ClearedSound(st: Setup)
    requires Sound(st)
    ensures Sound(Cleared(st)) && Agree(Cleared(st))
  {
  }

  /** loadFEN's ranks: the pieces of placement p created on a cleared
      board, in text order. */
  function Load(st: Setup, p: Placement): (r: Setup)
    requires Tabled(st) && IsPlacement(p)
  {
    TextOrderValid(p);
    AddAll(Cleared(st), TextOrder(p))
  }

  /** Each square of the placement holding a letter holds the piece made
      for it, whose id is its position in text order. */
  lemma LoadedPlaced(st: Setup, p: Placement)
    requires Tabled(st) && IsPlacement(p)
    ensures var items := TextOrder(p);
            var r := Load(st, p);
            && OccupantsValid(items) && Tabled(r) && |r.created| == |st.created| + |items|
            && forall k :: 0 <= k < |items| ==>
                 && r.grid[items[k].at.row][items[k].at.file] == Some(r.created[|st.created| + k])
                 && Named(r.created[|st.created| + k], items[k].letter, k, |st.created| + k)
  {
    TextOrderValid(p);
    AddAllPlaces(Cleared(st), TextOrder(p));
    AddAllNamed(Cleared(st), TextOrder(p));
  }

  /** The k-th piece made has the k-th letter, the k-th id from the
      counter on and the k-th serial from the first free one on. */
  lemma {:induction false} AddAllNamed(st: Setup, items: seq<Occupant>)
    requires Tabled(st) && OccupantsValid(items)
    ensures var r := AddAll(st, items);
            forall k :: 0 <= k < |items| ==> Named(r.created[|st.created| + k], items[k].letter, st.counter + k, |st.created| + k)
    decreases |items|
  {
    if items != [] {
      var n := |items| - 1;
      var front := items[..n];
      assert OccupantsValid(front) by {
        assert forall k :: 0 <= k < n ==> front[k] == items[k];
      }
      AddAllNamed(st, front);
      var mid := AddAll(st, front);
      AddPieceAppends(mid, items[n]);
      var r := AddAll(st, items);
      forall k | 0 <= k < |items| ensures Named(r.created[|st.created| + k], items[k].letter, st.counter + k, |st.created| + k) {
        if k < n {
          assert front[k] == items[k];
          assert r.created[|st.created| + k] == mid.created[|st.created| + k];
        }
      }
    }
  }

  /** Every square the placement leaves blank is empty. */
  lemma LoadedEmpty(st: Setup, p: Placement)
    requires Tabled(st) && IsPlacement(p)
    ensures var r := Load(st, p);
            && Tabled(r)
            && forall rr, ff :: 0 <= rr < 8 && 0 <= ff < 8 && p[rr][ff].None? ==> r.grid[rr][ff].None?
  {
    var items := TextOrder(p);
    TextOrderLists(p);
    var c := Cleared(st);
    AddAllKeeps(c, items);
    forall rr, ff | 0 <= rr < 8 && 0 <= ff < 8 && p[rr][ff].None? ensures !Covers(items, Square(rr, ff)) {
      forall k | 0 <= k < |items| ensures items[k].at != Square(rr, ff) {
        assert items[k] in items;
      }
    }
  }

  /** The squares of a loaded placement carry its letters. */
  lemma LoadedLetters(st: Setup, p: Placement)
    requires Tabled(st) && IsPlacement(p)
    ensures Letters(Load(st, p).grid) == p
  {
    var items := TextOrder(p);
    var r := Load(st, p);
    LoadedPlaced(st, p);
    LoadedEmpty(st, p);
    TextOrderLists(p);
    var l := Letters(r.grid);
    forall rr, ff | 0 <= rr < 8 && 0 <= ff < 8 ensures l[rr][ff] == p[rr][ff] {
      if p[rr][ff].Some? {
        var x := Occupant(Square(rr, ff), p[rr][ff].value);
        assert x in items;
        var k :| 0 <= k < |items| && items[k] == x;
        assert r.grid[rr][ff] == Some(r.created[|st.created| + k]);
      }
    }
    forall rr | 0 <= rr < 8 ensures l[rr] == p[rr] {
    }
  }

  /** Ids are handed out in FEN reading order: the k-th letter met, from
      rank 8 down and from file a to h in each rank, is the piece with
      id k. */
  lemma LoadedIds(st: Setup, p: Placement)
    requires Tabled(st) && IsPlacement(p)
    ensures var items := TextOrder(p);
            var r := Load(st, p);
            && OccupantsValid(items) && IsGrid(r.grid)
            && forall k :: 0 <= k < |items| ==>
                 r.grid[items[k].at.row][items[k].at.file].Some? && r.grid[items[k].at.row][items[k].at.file].value.id == k
  {
    LoadedPlaced(st, p);
  }

  /** The k-th piece made is registered under id k. */
  lemma LoadedRegistry(st: Setup, p: Placement)
    requires Tabled(st) && IsPlacement(p)
    ensures var items := TextOrder(p);
            var r := Load(st, p);
            && r.counter == |items| && |r.created| == |st.created| + |items|
            && forall k :: 0 <= k < |items| ==> k in r.registry && r.registry[k] == Some(r.created[|st.created| + k])
  {
    var items := TextOrder(p);
    TextOrderValid(p);
    var c := Cleared(st);
    var r := AddAll(c, items);
    forall k | 0 <= k < |items| ensures k in r.registry && r.registry[k] == Some(r.created[|st.created| + k]) {
      RegisteredAt(c, items, k);
    }
  }

  /** The k-th piece made records the square of the k-th entry. */
  lemma LoadedSpots(st: Setup, p: Placement)
    requires Tabled(st) && IsPlacement(p)
    ensures var items := TextOrder(p);
            var r := Load(st, p);
            && |r.places| == |st.created| + |items|
            && forall k :: 0 <= k < |items| ==> r.places[|st.created| + k] == Some(items[k].at)
  {
    var items := TextOrder(p);
    TextOrderValid(p);
    var c := Cleared(st);
    var r := AddAll(c, items);
    AddAllSpots(c, items);
    forall k | 0 <= k < |items| ensures r.places[|st.created| + k] == Some(items[k].at) {
      assert r.places[|st.created| + k] == Spots(items)[k];
    }
  }

  /** A load keeps the structural invariant. */
  lemma LoadedSound(st: Setup, p: Placement)
    requires Sound(st) && IsPlacement(p)
    ensures Sound(Load(st, p))
  {
    TextOrderValid(p);
    ClearedSound(st);
    AddAllKeepsSound(Cleared(st), TextOrder(p));
  }

  /** Every piece on a loaded board is registered under its id, which is
      below the counter. */
  lemma LoadedGridRegistered(st: Setup, p: Placement)
    requires Tabled(st) && IsPlacement(p)
    ensures var r := Load(st, p);
            && IsGrid(r.grid)
            && forall rr, ff :: 0 <= rr < 8 && 0 <= ff < 8 && r.grid[rr][ff].Some? ==>
                 && r.grid[rr][ff].value.id < r.counter
                 && r.grid[rr][ff].value.id in r.registry && r.registry[r.grid[rr][ff].value.id] == r.grid[rr][ff]
  {
    var items := TextOrder(p);
    var r := Load(st, p);
    TextOrderLists(p);
    LoadedPlaced(st, p);
    LoadedEmpty(st, p);
    LoadedRegistry(st, p);
    forall rr, ff | 0 <= rr < 8 && 0 <= ff < 8 && r.grid[rr][ff].Some?
      ensures && r.grid[rr][ff].value.id < r.counter
              && r.grid[rr][ff].value.id in r.registry && r.registry[r.grid[rr][ff].value.id] == r.grid[rr][ff]
    {
      var x := Occupant(Square(rr, ff), p[rr][ff].value);
      assert x in items;
      var k :| 0 <= k < |items| && items[k] == x;
      assert r.grid[rr][ff] == Some(r.created[|st.created| + k]);
    }
  }

  /** Every id below the counter of a loaded board names a piece standing
      on the square it records. */
  lemma LoadedIdsOnGrid(st: Setup, p: Placement)
    requires Sound(st) && IsPlacement(p)
    ensures Sound(Load(st, p))
    ensures var r := Load(st, p);
            forall id :: 0 <= id < r.counter ==> id in r.registry && r.registry[id].Some? && OnGrid(r, r.registry[id].value)
  {
    var items := TextOrder(p);
    var r := Load(st, p);
    LoadedSound(st, p);
    LoadedPlaced(st, p);
    LoadedRegistry(st, p);
    LoadedSpots(st, p);
    forall id | 0 <= id < r.counter
      ensures id in r.registry && r.registry[id].Some? && OnGrid(r, r.registry[id].value)
    {
      var q := r.created[|st.created| + id];
      assert r.registry[id] == Some(q);
      assert Named(q, items[id].letter, id, |st.created| + id);
      assert r.places[q.serial] == Some(items[id].at);
      assert r.grid[items[id].at.row][items[id].at.file] == Some(q);
    }
  }

  /** After a load the grid and the registry agree: the pieces on the
      board are exactly those registered under the ids below the counter. */
  lemma LoadedAgree(st: Setup, p: Placement)
    requires Sound(st) && IsPlacement(p)
    ensures Sound(Load(st, p)) && Agree(Load(st, p))
  {
    LoadedIdsOnGrid(st, p);
    LoadedGridRegistered(st, p);
  }

  // ---------------------------------------------------------------- kings

  /** The letters init turns into a king of colour c. */
  predicate KingLetter(x: char, c: Colour) {
    if c == White then x == 'K' || x == '\U{212A}' else x == 'k'
  }

  lemma InitKing(x: char, id: nat, serial: nat, c: Colour)
    requires IsPieceLetter(x)
    ensures var q := Init(x, id, serial).value;
            q.kind == King && q.colour == c <==> KingLetter(x, c)
  {
    PieceLetters(x, id, serial);
  }

  /** The position of the last king letter of colour c among the entries. */
  function LastKing(items: seq<Occupant>, c: Colour): (r: Option<nat>)
    ensures r.Some? ==> r.value < |items| && KingLetter(items[r.value].letter, c)
    ensures r.Some? ==> forall j :: r.value < j < |items| ==> !KingLetter(items[j].letter, c)
    ensures r.None? ==> forall j :: 0 <= j < |items| ==> !KingLetter(items[j].letter, c)
    decreases |items|
  {
    if items == [] then None
    else if KingLetter(items[|items| - 1].letter, c) then Some(|items| - 1)
    else
      var r := LastKing(items[..|items| - 1], c);
      assert forall j :: 0 <= j < |items| - 1 ==> items[..|items| - 1][j] == items[j];
      r
  }

  /** parseFENRow records the last king of each colour it meets; a colour
      it meets no king of keeps its entry, or its absence. */
  lemma {:induction false} AddAllKings(st: Setup, items: seq<Occupant>, c: Colour)
    requires Tabled(st) && OccupantsValid(items)
    ensures var r := AddAll(st, items);
            match LastKing(items, c)
            case Some(k) => c in r.kings && r.kings[c] == r.created[|st.created| + k]
            case None => (c in r.kings <==> c in st.kings) && (c in st.kings ==> r.kings[c] == st.kings[c])
    decreases |items|
  {
    if items != [] {
      var n := |items| - 1;
      var front := items[..n];
      assert OccupantsValid(front) by {
        assert forall k :: 0 <= k < n ==> front[k] == items[k];
      }
      AddAllKings(st, front, c);
      var mid := AddAll(st, front);
      AddPieceAppends(mid, items[n]);
      AddPieceKings(mid, items[n], c);
      if !KingLetter(items[n].letter, c) {
        assert LastKing(items, c) == LastKing(front, c);
      }
    }
  }

  lemma AddPieceKings(st: Setup, x: Occupant, c: Colour)
    requires Tabled(st) && OnBoard(x.at) && IsPieceLetter(x.letter)
    ensures var r := AddPiece(st, x);
            if KingLetter(x.letter, c) then c in r.kings && r.kings[c] == r.created[|st.created|]
            else (c in r.kings <==> c in st.kings) && (c in st.kings ==> r.kings[c] == st.kings[c])
  {
    InitKing(x.letter, st.counter, |st.created|, c);
  }

  /** After a load, the kings entry of a colour is the king standing on
      the last square, in reading order, whose letter is a king of that
      colour; with no such letter the entry is as it was. */
  lemma LoadedKings(st: Setup, p: Placement, c: Colour)
    requires Tabled(st) && IsPlacement(p)
    ensures var items := TextOrder(p);
            var r := Load(st, p);
            && OccupantsValid(items) && IsGrid(r.grid)
            && match LastKing(items, c)
               case Some(k) => c in r.kings && r.grid[items[k].at.row][items[k].at.file] == Some(r.kings[c])
               case None => (c in r.kings <==> c in st.kings) && (c in st.kings ==> r.kings[c] == st.kings[c])
  {
    var items := TextOrder(p);
    TextOrderValid(p);
    var c0 := Cleared(st);
    var r := AddAll(c0, items);
    AddAllPlaces(c0, items);
    AddAllKings(c0, items, c);
    match LastKing(items, c) {
      case Some(k) =>
        assert r.grid[items[k].at.row][items[k].at.file] == Some(r.created[|st.created| + k]);
      case None =>
    }
  }

  // ----------------------------------------------- the start position loaded

  /** The number of occupied squares in a row. */
  function Occupied(cells: seq<Option<char>>): nat
    decreases |cells|
  {
    if cells == [] then 0 else Occupied(cells[..|cells| - 1]) + (if cells[|cells| - 1].Some? then 1 else 0)
  }

  /** A row of at most eight squares lists one letter per occupied square. */
  lemma {:induction false} RowOrderCount(row: int, cells: seq<Option<char>>)
    requires |cells| <= 8
    ensures |RowOrder(row, cells)| == Occupied(cells)
    decreases |cells|
  {
    if cells != [] {
      RowOrderCount(row, cells[..|cells| - 1]);
    }
  }

  lemma {:induction false} OccupiedFull(cells: seq<Option<char>>)
    requires forall i :: 0 <= i < |cells| ==> cells[i].Some?
    ensures Occupied(cells) == |cells|
    decreases |cells|
  {
    if cells != [] {
      OccupiedFull(cells[..|cells| - 1]);
    }
  }

  lemma {:induction false} OccupiedEmpty(cells: seq<Option<char>>)
    requires forall i :: 0 <= i < |cells| ==> cells[i].None?
    ensures Occupied(cells) == 0
    decreases |cells|
  {
    if cells != [] {
      OccupiedEmpty(cells[..|cells| - 1]);
    }
  }

  /** The occupied squares of rows k and up. */
  function OccupiedFrom(q: seq<seq<Option<char>>>, k: nat): nat
    requires k <= |q|
    decreases |q| - k
  {
    if k == |q| then 0 else Occupied(q[k]) + OccupiedFrom(q, k + 1)
  }

  lemma {:induction false} UpperCount(q: seq<seq<Option<char>>>, k: nat, base: int)
    requires k <= |q| && forall r :: 0 <= r < |q| ==> |q[r]| <= 8
    ensures |Upper(q[k..], base)| == OccupiedFrom(q, k)
    decreases |q| - k
  {
    if k < |q| {
      assert q[k..][1..] == q[k + 1..];
      UpperCount(q, k + 1, base + 1);
      RowOrderCount(base, q[k]);
    }
  }

  /** START_FEN places 32 pieces. */
  lemma StartPieceCount()
    ensures |TextOrder(StartPlacement)| == 32
  {
    var q := StartPlacement;
    StartRowsWellFormed();
    UpperCount(q, 0, 0);
    assert q[0..] == q;
    EightRows(q);
    PieceRowOccupied("RNBQKBNR");
    PieceRowOccupied("PPPPPPPP");
    BlanksOccupied(8);
    PieceRowOccupied("pppppppp");
    PieceRowOccupied("rnbqkbnr");
  }

  lemma PieceRowOccupied(s: string)
    ensures Occupied(PieceRow(s)) == |s|
  {
    OccupiedFull(PieceRow(s));
  }

  lemma BlanksOccupied(n: nat)
    ensures Occupied(Blanks(n)) == 0
  {
    OccupiedEmpty(Blanks(n));
  }

  lemma EightRows(q: seq<seq<Option<char>>>)
    requires |q| == 8
    ensures OccupiedFrom(q, 0) == Occupied(q[0]) + Occupied(q[1]) + Occupied(q[2]) + Occupied(q[3])
                                  + Occupied(q[4]) + Occupied(q[5]) + Occupied(q[6]) + Occupied(q[7])
  {
    assert OccupiedFrom(q, 7) == Occupied(q[7]);
    assert OccupiedFrom(q, 5) == Occupied(q[5]) + Occupied(q[6]) + Occupied(q[7]);
    assert OccupiedFrom(q, 3) == Occupied(q[3]) + Occupied(q[4]) + OccupiedFrom(q, 5);
    assert OccupiedFrom(q, 1) == Occupied(q[1]) + Occupied(q[2]) + OccupiedFrom(q, 3);
  }

  /** The tables a new board holds: START_FEN's placement loaded on fresh
      tables. */
  function StartSetup(): Setup {
    StartRowsWellFormed();
    Load(Fresh, StartPlacement)
  }

  /** Loading START_FEN on fresh tables: 32 pieces with ids 0 to 31 and
      a king recorded for each colour, with the tables sound and in
      agreement. */
  lemma StartLoaded()
    ensures IsPlacement(StartPlacement)
    ensures var r := Load(Fresh, StartPlacement);
            && Sound(r) && Agree(r) && r.counter == 32 && |r.created| == 32
            && White in r.kings && Black in r.kings
  {
    var p := StartPlacement;
    StartRowsWellFormed();
    FreshSound();
    StartPieceCount();
    LoadedRegistry(Fresh, p);
    LoadedAgree(Fresh, p);
    StartKings();
    LoadedKings(Fresh, p, White);
    LoadedKings(Fresh, p, Black);
  }

  /** START_FEN has a white king on e1 and a black king on e8. */
  lemma StartKings()
    ensures IsPlacement(StartPlacement)
    ensures LastKing(TextOrder(StartPlacement), White).Some? && LastKing(TextOrder(StartPlacement), Black).Some?
  {
    StartRowsWellFormed();
    assert StartPlacement[0] == PieceRow("RNBQKBNR") && StartPlacement[7] == PieceRow("rnbqkbnr");
    KingFound(StartPlacement, Square(0, 4), 'K', White);
    KingFound(StartPlacement, Square(7, 4), 'k', Black);
  }

  /** A king letter of colour c on the placement makes LastKing find one. */
  lemma KingFound(p: Placement, at: Square, x: char, c: Colour)
    requires IsPlacement(p) && OnBoard(at) && p[at.row][at.file] == Some(x) && KingLetter(x, c)
    ensures LastKing(TextOrder(p), c).Some?
  {
    TextOrderLists(p);
    var items := TextOrder(p);
    assert Occupant(at, x) in items;
  }
}
