/** The lookup tables of js/constants.js. Offsets and directions are
    (row, file) pairs; row 0 is rank 1 and file 0 is file 'a'. */
module Constants {
  import opened Text

  /** KNIGHT_MOVES, in the source's order. */
  const KnightMoves: seq<(int, int)> :=
    [(2, 1), (1, 2), (2, -1), (1, -2), (-2, 1), (-1, 2), (-2, -1), (-1, -2)]

  /** ROOK_DIRECTIONS: the four orthogonal unit steps. */
  const RookDirections: seq<(int, int)> := [(1, 0), (-1, 0), (0, 1), (0, -1)]

  /** BISHOP_DIRECTIONS: the four diagonal unit steps. */
  const BishopDirections: seq<(int, int)> := [(1, 1), (1, -1), (-1, 1), (-1, -1)]

  /** FILES: the file letters, file 0 first. */
  const Files: seq<char> := ['a', 'b', 'c', 'd', 'e', 'f', 'g', 'h']

  /** ROWS: the rank numbers, row 0 first. */
  const Rows: seq<int> := [1, 2, 3, 4, 5, 6, 7, 8]

  /** PIECES: the lower-case piece types. */
  const PieceTypes: seq<char> := ['k', 'q', 'r', 'b', 'n', 'p']

  /** The eight rank texts of START_FEN, rank 8 first. */
  const StartRanks: seq<string> := ["rnbqkbnr", "pppppppp", "8", "8", "8", "8", "PPPPPPPP", "RNBQKBNR"]

  /** START_FEN, the position a new board loads:
      "rnbqkbnr/pppppppp/8/8/8/8/PPPPPPPP/RNBQKBNR w KQkq - 0 0", written as
      its eight ranks joined by '/' and the five remaining fields, all
      separated by spaces, so that proofs about it work field by field. */
  const StartFen: string := Join([Join(StartRanks, '/'), "w", "KQkq", "-", "0", "0"], ' ')

  /** Array.prototype.indexOf: the first index holding `x`, or -1. */
  function IndexOf<T(==)>(s: seq<T>, x: T): (i: int)
    ensures -1 <= i < |s|
    ensures i == -1 <==> x !in s
    ensures 0 <= i ==> s[i] == x && x !in s[..i]
  {
    if |s| == 0 then -1
    else if s[0] == x then 0
    else
      var j := IndexOf(s[1..], x);
      assert j >= 0 ==> s[1..][..j] == s[1..j + 1];
      if j == -1 then -1 else j + 1
  }

  predicate IsKnightJump(a: int, b: int) {
    ((a == 1 || a == -1) && (b == 2 || b == -2)) || ((a == 2 || a == -2) && (b == 1 || b == -1))
  }

  /** KNIGHT_MOVES lists eight distinct offsets, and they are exactly the knight's jumps. */
  lemma KnightMovesAreTheJumps()
    ensures |KnightMoves| == 8
    ensures forall i, j :: 0 <= i < j < |KnightMoves| ==> KnightMoves[i] != KnightMoves[j]
    ensures forall a, b :: (a, b) in KnightMoves <==> IsKnightJump(a, b)
  {
  }

  /** ROOK_DIRECTIONS are the orthogonal unit steps, BISHOP_DIRECTIONS the
      diagonal ones; the two are disjoint and together give the eight neighbours. */
  lemma DirectionsPartitionNeighbours()
    ensures forall a, b :: (a, b) in RookDirections <==> (a == 0 && (b == 1 || b == -1)) || (b == 0 && (a == 1 || a == -1))
    ensures forall a, b :: (a, b) in BishopDirections <==> (a == 1 || a == -1) && (b == 1 || b == -1)
    ensures forall d :: d in RookDirections ==> d !in BishopDirections
    ensures forall a, b :: (a, b) in RookDirections + BishopDirections <==>
      -1 <= a <= 1 && -1 <= b <= 1 && (a, b) != (0, 0)
  {
  }

  /** FILES[i] is the i-th letter from 'a' and ROWS[i] is i + 1. */
  lemma FilesAndRowsCount()
    ensures |Files| == 8 && |Rows| == 8
    ensures forall i :: 0 <= i < 8 ==> Files[i] as int == 'a' as int + i && Rows[i] == i + 1
  {
  }

  /** PIECES holds the six distinct kinds k, q, r, b, n, p. */
  lemma PieceTypesAreSix()
    ensures |PieceTypes| == 6
    ensures forall i, j :: 0 <= i < j < 6 ==> PieceTypes[i] != PieceTypes[j]
    ensures forall c :: c in PieceTypes <==> c in {'k', 'q', 'r', 'b', 'n', 'p'}
  {
  }

  /** Looking a letter up in FILES gives its distance from 'a'. */
  lemma FilesIndex(c: char)
    ensures IndexOf(Files, c) == if 'a' <= c <= 'h' then c as int - 'a' as int else -1
  {
    FilesAndRowsCount();
    if 'a' <= c <= 'h' {
      assert Files[c as int - 'a' as int] == c;
    }
  }

  /** Looking a number up in ROWS gives the number less one. */
  lemma RowsIndex(n: int)
    ensures IndexOf(Rows, n) == if 1 <= n <= 8 then n - 1 else -1
  {
    FilesAndRowsCount();
    if 1 <= n <= 8 {
      assert Rows[n - 1] == n;
    }
  }
}
