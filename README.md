# A verified model of the morphy chess board

This project models the rules engine of the morphy JavaScript chess
board in Dafny: the `ChessBoard` class of `js/board.js`, the
`ChessPiece` class of `js/piece.js` and the tables of `js/constants.js`.

The modules follow the source:

- **Constants** holds `KNIGHT_MOVES`, `ROOK_DIRECTIONS`,
  `BISHOP_DIRECTIONS`, `FILES`, `ROWS`, `PIECES` and `START_FEN`, with
  lemmas about their shape.
- **Coords** holds `validTextCoordinate` and `validCoordinate`.
- **Pieces** holds `ChessPiece.init`, `isValidPiece` and
  `isOppositeColour`. A piece is an immutable value: its letter, kind,
  colour, id and a serial number. The serial stands for the object's
  identity.
- **Attack** holds `getPiece`, `getPieceSafe`, `getPieceInDirection` and
  `squareIsAttacked`. Each is a function characterised by lemmas, plus a
  method that runs the source's loops and is proved to compute it.
- **Moves** holds `validMoves` and the six generators, including
  `validateDirections`. It is built the same way: specification
  functions, lemmas saying exactly which squares each generator lists,
  and loop methods proved equal to the functions.
- **Fen** reads FEN text into a record or an error, the way `loadFEN`
  and `parseFENRow` accept it. It also writes a record back as
  `getFEN` does. Its lemmas prove the round trips.
- **BoardState** is the board's mutable state as one value: the grid,
  the `pieces` registry, the `kings` table, every piece object made so
  far with the square it records, and the id counter. `setPiece`
  (`Put`) and the loading of a placement (`Load`) are functions on this
  value. The lemmas show that they keep the tables consistent.
- **Board** holds the `ChessBoard` class. Its fields are the source's
  `board`, `pieces`, `kings`, `piece_id_counter`, `activecolour`,
  `castling`, `enpassant`, `halfmoves` and `fullmoves`, plus two
  bookkeeping fields. `created` lists every piece object made so far,
  and `places` holds the row and file each of those objects records,
  which the source keeps on the piece objects themselves. `LoadFEN`,
  `ParseFENRow`, `SetPiece` and `DoMove`, with the steps they are
  split into, are methods with `modifies` clauses. Each of them has a
  contract tying its new state to the functions above. `GetFEN`,
  `PieceIsAttacked` and `CheckMove` only read the board.

Two invariants are kept throughout:

- Soundness: each grid square holds a piece that records that square,
  every registry entry is a piece under its own id, and every kings entry
  is a king of its colour.
- Agreement between grid and registry: it holds after every successful
  load and is preserved by every move.

The rows of the grid are rows 0 (rank 1) to 7 (rank 8); files are 0
(file a) to 7 (file h), as in the source.

## Specification functions

The source's operations are specified by functions that the methods are
proved to compute and the lemmas are about:

- `Coords.ValidCoordinate` is `validCoordinate` (js/board.js:177-184).
- `Pieces.IsValidPiece` and `Pieces.IsOppositeColour` are
  `isValidPiece` and `isOppositeColour` (js/piece.js:196-202).
- `Attack.PieceSafe`, `Attack.FirstInDirection` and `Attack.Attacker`
  are `getPieceSafe` (js/board.js:476-478), `getPieceInDirection`
  (js/board.js:399-412) and `squareIsAttacked` (js/board.js:348-390).
- `Moves.PawnMoves`, `Moves.KnightTargets`, `Moves.Directions`,
  `Moves.KingMoves` and `Moves.ValidMoves` are the pawn, knight,
  sliding and king generators and `validMoves` (js/piece.js:15-194);
  the en-passant comparison is `Moves.EnPassantTest` (js/piece.js:59-64).
- `Fen.ParseRank`, `Fen.ParsePlacement` and `Fen.ParseFen` are what
  `parseFENRow` and `loadFEN` accept (js/board.js:8-141);
  `Fen.EncodeRank` and `Fen.FenText` are what `getFEN` writes
  (js/board.js:290-330).
- `BoardState.Put` is `setPiece` (js/board.js:422-454);
  `BoardState.AddPiece` and `BoardState.Load` are the creation of one
  piece and the loading of a placement (js/board.js:12-30, 77-96).
- `Board.Accepts` and `Board.Judge` are `doMove`'s checks
  (js/board.js:194-234); `Board.MakeMove`, `Board.Played` and
  `Board.Play` are its effects (js/board.js:236-284); `Board.Place` is
  the row and file a piece object records, as `pieceIsAttacked` reads
  them (js/board.js:337-339).
- `Constants` holds the tables of js/constants.js, START_FEN included.

A function whose properties are stated by lemmas has its row under the
lemmas below rather than its own.

## Model

| member | source | states |
|---|---|---|
| Constants.KnightMovesAreTheJumps | js/constants.js:1 | KNIGHT_MOVES holds eight distinct offsets, and an offset is in it exactly when it is (±1, ±2) or (±2, ±1) |
| Constants.DirectionsPartitionNeighbours | js/constants.js:2-3 | ROOK_DIRECTIONS are exactly the four orthogonal unit steps and BISHOP_DIRECTIONS exactly the four diagonal ones; they are disjoint, and together they are exactly the eight neighbour offsets |
| Constants.FilesAndRowsCount | js/constants.js:5-6 | FILES[i] is the i-th letter from 'a' and ROWS[i] is i + 1, for i in 0..7 |
| Constants.PieceTypesAreSix | js/constants.js:7 | PIECES holds six distinct letters, exactly k, q, r, b, n and p |
| Constants.IndexOf | js/board.js:158-166 | indexOf returns -1 exactly when the value is absent, and otherwise the first index holding it |
| Constants.FilesIndex | js/board.js:163 | FILES.indexOf(c) is c's distance from 'a' for 'a'..'h', and -1 for any other character |
| Constants.RowsIndex | js/board.js:158 | ROWS.indexOf(n) is n - 1 for 1..8 and -1 otherwise |
| Coords.ValidTextCoordinate | js/board.js:148-169 | a text names a square exactly when it has two characters, the first in 'a'..'h' and the second in '1'..'8'; then the row is the digit minus 1 and the file is the letter's index, both in 0..7 |
| Coords.CoordinateText | js/board.js:148-169 | every square has a name, and validTextCoordinate reads that name back as the square |
| Coords.TextCoordinateNamesSquare | js/board.js:148-169 | an accepted coordinate text is the name of the square it denotes, so the text-to-square map is a bijection |
| Text.Split | js/board.js:72 | split gives at least one part, and no part contains the separator |
| Text.JoinSplit | js/board.js:72 | joining the parts of a split with the separator restores the text |
| Text.SplitNoSeparator | js/board.js:72 | a text without the separator splits into itself alone |
| Text.SplitAtSeparator | js/board.js:72 | splitting cuts at the first separator: the part before it, then the split of the rest |
| Text.SplitJoin | js/board.js:327 | splitting text joined from separator-free parts gives those parts back |
| Text.LowerString | js/board.js:99 | toLowerCase keeps the length and lower-cases each character |
| Text.IntTextParses | js/board.js:327 | the number getFEN prints for a clock is read back by loadFEN's clock check as the same number, and its text is canonical |
| Text.CanonicalNumeralPrints | js/board.js:131-140 | a canonical clock text reads as a number that prints as that same text |
| Text.NatTextValue | js/board.js:300 | the decimal text getFEN prints for a count is all digits, with that value |
| Pieces.Init | js/piece.js:164-177 | init succeeds exactly when the lower-cased letter is in PIECES, and otherwise fails with that letter; the kind is the lower-cased letter; the colour is black exactly when the letter is already lower-case; the id is the one given |
| Pieces.PieceLetters | js/piece.js:164-177 | init accepts a letter exactly when it is a piece letter |
| Pieces.ValidPieceKinds | js/piece.js:196-198 | isValidPiece holds exactly for the six type letters that name a kind, so validMoves' 'Unknown piece' branch is unreachable |
| Pieces.KindOfType | js/piece.js:184-194 | a kind found for a type letter is the kind whose type letter that is |
| Pieces.PieceLetterIsNoSeparator | js/board.js:16 | a piece letter is not a digit, not white space, not '/' and not ' ' |
| Attack.GetPiece | js/board.js:462-468 | getPiece throws, naming the square, exactly when the square is off the 8×8 board, and there getPieceSafe finds nothing; on the board it returns what getPieceSafe returns |
| Attack.FirstInDirectionIsNearest | js/board.js:399-412 | getPieceInDirection returns a piece only from an occupied square with nothing nearer along the ray, and whenever such a square exists within distance 8 it returns that square's piece |
| Attack.GetPieceInDirection | js/board.js:399-412 | the loop returns the first piece within distance 8 along the direction |
| Attack.ScanJumpsFinds | js/board.js:350-369 | the pawn and knight scans return a piece only when it is of the attacking colour and kind and sits at one of the offsets, and they find one whenever one does |
| Attack.ScanRaysFinds | js/board.js:371-387 | the ray scans return a piece only when it is the first piece along one of the directions and has the attacking colour and kind, and they find one whenever one exists |
| Attack.AttackerCharacterised | js/board.js:348-390 | squareIsAttacked reports a piece only when it attacks the square as a pawn, knight, diagonal or orthogonal slider of the given colour, never a king, and reports one whenever such an attacker exists |
| Attack.ScanJumpTable | js/board.js:355-369 | the offset loop, last offset first, returns what the scan specification returns |
| Attack.ScanRayTable | js/board.js:372-387 | the direction loop, last direction first, returns what the scan specification returns |
| Attack.SquareIsAttacked | js/board.js:348-390 | squareIsAttacked computes Attacker: pawns, then knights, then diagonals, then orthogonals; the result has the attacking colour and is never a king |
| Moves.RayListsReachable | js/piece.js:117-151 | one ray of validateDirections lists exactly the squares at distance up to maxDist that the piece can land on, with every square before them empty |
| Moves.ReachesPastOpen | js/piece.js:133-136 | past an empty square the ray lists that square and continues |
| Moves.ReachesBlocked | js/piece.js:137-145 | at the first occupied or off-board square the ray stops; that square is listed exactly when it holds the other colour |
| Moves.DirectionsListReachable | js/piece.js:117-151 | validateDirections lists exactly the squares some one of its directions reaches |
| Moves.SlidesLand | js/piece.js:117-151 | every square validateDirections lists is on the board and empty or of the other colour |
| Moves.WalkRay | js/piece.js:127-147 | the inner loop computes the ray specification |
| Moves.ValidateDirections | js/piece.js:117-151 | the outer loop, last direction first, computes Directions |
| Moves.KnightTargetsAreJumps | js/piece.js:70-88 | the knight's candidates are exactly the on-board KNIGHT_MOVES targets that are empty or of the other colour |
| Moves.KnightCandidates | js/piece.js:70-88 | the knight loop, with off-board targets skipped, computes the knight candidates |
| Moves.PawnMovesCharacterised | js/piece.js:15-68 | a pawn fails exactly when its forward square is off the board; otherwise it lists exactly the empty square ahead ('m'), two ahead from its starting row when both are empty ('m'), and the forward diagonals holding the other colour ('a') |
| Moves.PawnAttacksAreCaptures | js/piece.js:43-58 | the pawn's attack candidates are exactly the looked-at squares holding the other colour, tagged 'a' |
| Moves.EnPassantNeverMatches | js/piece.js:59-64 | the en-passant comparison never holds while the en-passant field is '-' or a square name, so the branch adds no candidate |
| Moves.PawnCandidates | js/piece.js:15-68 | the pawn generator computes PawnMoves, including the failure on an off-board forward square |
| Moves.ScanPawnAttacks | js/piece.js:51-65 | the attack loop, last square first, computes the attack candidates |
| Moves.UnattackedFilters | js/piece.js:103-112 | the king's filter keeps exactly the candidates the other colour does not attack |
| Moves.OneStepListed | js/piece.js:102 | with maxDist 1, validateDirections lists exactly the one-step neighbours the piece can land on |
| Moves.KingMovesCharacterised | js/piece.js:99-115 | the king's candidates are exactly the neighbouring squares it can land on that the other colour does not attack, judged on the board as it stands |
| Moves.RemoveAttacked | js/piece.js:103-114 | the splice loop, from the back, leaves exactly the unattacked candidates in their order |
| Moves.Candidates | js/piece.js:184-194 | validMoves dispatches to each kind's generator, as ValidMoves states: bishop, rook and queen with maxDist 8 over their directions, and the king with maxDist 1 |
| Moves.CandidatesOnBoard | js/piece.js:184-194 | every candidate is on the board, and it is tagged exactly when the piece is a pawn |
| Moves.CandidatesLand | js/piece.js:184-194 | every candidate is empty or holds the other colour |
| Fen.ParsedRankIsRow | js/board.js:8-35 | an accepted rank fills exactly eight squares, each empty or holding a piece letter |
| Fen.RankRoundTrip | js/board.js:294-310 | the text getFEN writes for a row reads back as that row |
| Fen.CanonicalRankReprints | js/board.js:8-35 | an accepted rank without adjacent digits or '0' is written back unchanged |
| Fen.PlacementRows | js/board.js:85-96 | an accepted placement field has exactly eight rank texts and gives eight rows, and row r is what the rank text at position 7 - r reads as |
| Fen.RanksAllRead | js/board.js:93-96 | when every rank reads, row r is the rank read for it |
| Fen.RanksFirstError | js/board.js:93-96 | the first failing rank, from rank 8 down, decides the error |
| Fen.PlacementTextSplits | js/board.js:312 | the placement getFEN writes splits on '/' into its eight row texts |
| Fen.RowTextsAt | js/board.js:290-313 | getFEN writes row 7 first and row 0 last |
| Fen.PlacementRoundTrip | js/board.js:77-96 | a placement written by getFEN reads back as itself |
| Fen.ParsedFenIsWellFormed | js/board.js:68-141 | an accepted text gives eight rows of eight squares with valid letters and an en-passant field that is '-' or a square name |
| Fen.CastlingRoundTrip | js/board.js:317-325 | the castling text getFEN writes, K, Q, k, q in that order or '-', reads back as the same flags |
| Fen.ParseFenFields | js/board.js:68-141 | an accepted text has six fields, each read by its own field reader |
| Fen.ParseFenOfFields | js/board.js:68-141 | six space-free fields that each read are accepted as the record they give |
| Fen.ColourRoundTrip | js/board.js:315 | the colour getFEN writes reads back as the same colour |
| Fen.FenRoundTrip | js/board.js:290-330 | loadFEN accepts the text getFEN writes for any well-formed position and reads it back as that position |
| Fen.CanonicalCastlingReprints | js/board.js:110-119 | a castling field of K, Q, k, q letters in that order, or '-', is written back unchanged |
| Fen.CanonicalColourReprints | js/board.js:99-103 | 'w' and 'b' are written back unchanged |
| Fen.EnPassantReadsItself | js/board.js:121-128 | an accepted en-passant field is stored as given |
| Fen.EnPassantTextReads | js/board.js:121-128 | '-' and every square name are accepted as the en-passant field, stored unchanged, and contain no space |
| Fen.CanonicalPlacementReprints | js/board.js:85-96 | an accepted placement whose ranks are canonical is written back unchanged |
| Fen.CanonicalFenReprints | js/board.js:68-141 | loading a canonical FEN text and writing it back gives the same text |
| Fen.EncodeCellsCanonical | js/board.js:295-310 | with at most nine squares in all, each run of empty squares is written as a single digit from 1 to 9, so no '0' and no adjacent digits appear |
| Fen.EncodedRankCanonical | js/board.js:295-310 | the text written for a row of eight squares is a canonical rank text |
| Fen.RowTextsCanonical | js/board.js:292-313 | every rank text written for a placement is canonical |
| Fen.FenTextCanonical | js/board.js:290-330 | the text getFEN writes for a well-formed position is canonical, so with CanonicalFenReprints reading and writing are inverse on exactly the canonical texts |
| Fen.StartFenReads | js/constants.js:8 | START_FEN is accepted, as the standard start position with White to move, all castling flags, no en-passant square and both clocks 0; getFEN writes it back exactly |
| BoardState.PutGrid | js/board.js:424-433 | after setPiece each square holds what PutCell gives: the piece on its destination, its old square emptied, the rest kept |
| BoardState.PutPlaces | js/board.js:436-444 | after setPiece the moved piece records its destination, a replaced piece records no square, and the others are kept |
| BoardState.PutRegistry | js/board.js:438-445 | after setPiece the registry holds the piece under its id and false under the id of the piece it replaced |
| BoardState.PutKeepsSound | js/board.js:422-454 | setPiece keeps the tables sound and leaves kings, the made pieces and the counter as they were |
| BoardState.PutMoves | js/board.js:422-454 | moving a piece puts it on the destination, empties its origin and leaves every other square; a captured piece records no square |
| BoardState.PutMoveAgrees | js/board.js:422-454 | a move keeps the grid and the registry in agreement; the registry changes only by marking a captured piece false |
| BoardState.AddPieceKeepsSound | js/board.js:17-24 | creating one piece for a rank letter keeps the tables sound |
| BoardState.AddAllKeepsSound | js/board.js:12-30 | creating the pieces of any list of letters keeps the tables sound |
| BoardState.AddAllSpots | js/board.js:17 | the k-th piece made records the square of the k-th letter met |
| BoardState.AddAllEntry | js/board.js:17-19 | the registry gains the new pieces under the ids counter, counter + 1, … and keeps every other entry |
| BoardState.AddAllPlaces | js/board.js:18 | with every square met once in reading order, each square met holds the piece made for it |
| BoardState.AddAllKeeps | js/board.js:12-30 | a square no letter names keeps what it held |
| BoardState.AddAllKings | js/board.js:21-24 | the kings entry of a colour is the last king of that colour met, or is unchanged when none is met |
| BoardState.AddPieceKings | js/board.js:21-24 | one new piece becomes its colour's kings entry exactly when its letter is that colour's king; the other entry is unchanged |
| BoardState.LastKing | js/board.js:21-24 | finds the last king letter of a colour among the letters met, or reports that there is none |
| BoardState.TextOrderLists | js/board.js:91-96 | the letters are met exactly once each, from rank 8 down and from file a to h within a rank |
| BoardState.ClearedSound | js/board.js:77-82 | emptying every square keeps the tables sound and in agreement |
| BoardState.Cleared | js/board.js:77-82 | after the clearing loop every one of the 64 squares is empty |
| BoardState.FreshSound | js/board.js:42-45 | the empty tables init starts from are sound and in agreement |
| BoardState.AddPiece | js/board.js:17-24 | creating a piece for a letter on the board keeps every table of the right shape |
| BoardState.AddAll | js/board.js:12-30 | creating the pieces of a list of letters makes one piece object per letter and raises the id counter by one per letter |
| BoardState.CounterFree | js/board.js:70 | soundness does not depend on the id counter, so resetting it keeps the tables sound |
| BoardState.StartPieceCount | js/constants.js:8 | START_FEN's placement holds 32 piece letters |
| BoardState.StartKings | js/constants.js:8 | START_FEN's placement holds a white king and a black king |
| BoardState.StartLoaded | js/board.js:40-48 | loading START_FEN's placement on empty tables gives sound tables in agreement, 32 pieces made, the id counter at 32 and a king recorded for each colour |
| BoardState.LoadedPlaced | js/board.js:77-96 | after a load each letter's square holds a new piece with that letter, the id equal to its place in reading order, and the next serial |
| BoardState.LoadedEmpty | js/board.js:77-82 | after a load every square the placement leaves empty is empty |
| BoardState.LoadedLetters | js/board.js:77-96 | after a load the grid's letters are exactly the placement read |
| BoardState.LoadedIds | js/board.js:17 | ids are handed out 0, 1, 2, … in reading order |
| BoardState.LoadedRegistry | js/board.js:19 | after a load the counter is the number of pieces, and the k-th piece is registered under id k |
| BoardState.LoadedSpots | js/board.js:17 | after a load the k-th piece records the k-th letter's square |
| BoardState.LoadedSound | js/board.js:68-96 | a load keeps the tables sound |
| BoardState.LoadedGridRegistered | js/board.js:17-19 | after a load every piece on the grid has an id below the counter and is registered under it |
| BoardState.LoadedIdsOnGrid | js/board.js:17-19 | after a load every id below the counter names a piece standing where it records |
| BoardState.LoadedAgree | js/board.js:68-96 | after a load the grid and the registry agree, whatever stale entries the registry kept |
| BoardState.LoadedKings | js/board.js:21-24 | after a load a colour's kings entry is the piece on the square of the last king of that colour in reading order; with no such king the entry from before the load survives |
| Board.SetKeysText | js/board.js:317-325 | the key loop over the castling table writes exactly the castling text of the Fen module |
| Board.AcceptedIsCandidate | js/board.js:214-230 | a destination is accepted only when some candidate names it |
| Board.FirstCandidateDecides | js/board.js:214-230 | the first candidate naming the destination decides: the move is accepted exactly when that candidate is not a pawn's 'a' candidate on an empty square or a pawn's 'm' candidate on an occupied one |
| Board.CandidateAccepted | js/board.js:214-230 | for a piece other than a pawn, any candidate naming the destination makes the move accepted |
| Board.SearchCandidates | js/board.js:211-230 | the candidate loop stops at the first candidate on the destination; for a pawn an 'a' candidate needs a piece there and an 'm' candidate an empty square |
| Board.Judge | js/board.js:194-234 | an accepted move names two squares, and its piece stands on the origin |
| Board.JudgeAccepted | js/board.js:194-234 | an accepted move has valid coordinates, a piece of the side to move on the origin, and candidates that accept the destination |
| Board.AcceptedLands | js/board.js:210-234 | an accepted destination is another square on the board, empty or of the other colour |
| Board.LegalMoveLands | js/board.js:194-234 | an accepted move never captures a piece of the mover's colour and never stays in place |
| Board.PlayRefused | js/board.js:194-234 | a refused move throws Judge's error and changes nothing |
| Board.PlayMoves | js/board.js:192-284 | an accepted move relocates the piece, empties the origin and keeps every other square; a captured piece loses its square and its registry slot; the tables stay sound and in agreement; the move throws afterwards exactly when the other king is missing, and otherwise reports the capture and updates the game fields as Played does |
| Board.MovePair | js/board.js:248-259 | after a White move and a Black move, White is to move again, the full-move number has grown by exactly one, the half-move clock has grown by at most two and never shrunk, and the en-passant text is unchanged |
| Board.CastlingAfter | js/board.js:261-281 | a king's move clears both castling flags of its colour and keeps the other colour's; any other move, a rook's included, keeps every flag |
| Board.RankPieces | js/board.js:12-30 | the pieces a rank creates are on-board squares with piece letters |
| Board.LetterStep | js/board.js:16-26 | a piece letter advances the file; it creates a piece on the current file when the counter is a number below 8 |
| Board.DigitStep | js/board.js:27-29 | a digit advances the file by its value |
| Board.SpaceStep | js/board.js:27-29 | a white-space character turns the file counter into NaN |
| Board.BadLetterStep | js/board.js:17 | a letter outside PIECES makes the row fail with that letter |
| Board.RankEnd | js/board.js:32-34 | the row is accepted exactly when the file counter ends at 8, and otherwise fails naming the row |
| Board.ReadPlacement | js/board.js:85-96 | an accepted placement field has eight rows of eight valid squares |
| Board.FieldsRead | js/board.js:68-141 | loadFEN reads its six fields in order, stopping at the first that fails; all six read exactly when the text is accepted |
| Board.GameFieldsRead | js/board.js:98-140 | colour, castling, en passant and the two clocks are read in that order, and all five read exactly when each of them does |
| Board.GameFieldError | js/board.js:98-140 | the fields after the placement throw exactly when one of them fails |
| Board.FenAfterPlacement | js/board.js:68-141 | once the placement reads, the text is accepted exactly when the later fields are, with the error of the first that fails |
| Board.CastlingFlags | js/board.js:110-119 | the castling loop sets exactly the flags whose letters occur, and '-' clears them all |
| Board.SoundAfter | js/board.js:8-35 | the tables stay sound even when a rank fails part way |
| Board.RanksReadStep | js/board.js:93-96 | each rank read extends the rows read so far and the pieces made so far |
| Board.RanksReadFail | js/board.js:93-96 | a failing rank is the error of the whole placement |
| Board.AllRanksRead | js/board.js:85-96 | after all eight ranks the rows read are the placement, and the pieces were made in reading order |
| Board.ChessBoard.constructor | js/board.js:36-48 | a new board holds START_FEN's record, and its tables are exactly those of loading START_FEN's placement on empty tables: sound, in agreement, 32 pieces made, the id counter at 32, and a king recorded for each colour |
| Board.StartFenPlacement | js/board.js:48 | START_FEN's six fields all read, and its placement field reads as the start placement |
| Board.ChessBoard.LoadFEN | js/board.js:68-141 | loadFEN throws exactly when the text is refused, with its error; on success the board holds the parsed record with the tables in agreement; on failure the fields read before the failing one are set and the rest are kept; a wrong field count only resets the counter; a wrong rank count leaves an empty board |
| Board.ChessBoard.LoadPlacement | js/board.js:77-96 | the board is emptied and the ranks are read; on success the board holds the placement with tables in agreement |
| Board.ChessBoard.ReadGameFields | js/board.js:98-140 | each game field is set as soon as it reads; the first that fails throws and leaves the later ones as they were |
| Board.ChessBoard.ClearBoard | js/board.js:77-82 | every square becomes empty and nothing else changes |
| Board.ChessBoard.LoadRanks | js/board.js:85-96 | a field without eight ranks fails with the rank-count error and changes nothing; otherwise the result is that of the rank loop |
| Board.ChessBoard.ReadRanks | js/board.js:90-96 | the ranks are read from rank 8 down; the board ends with the placement's pieces made in reading order, or fails with the first failing rank's error |
| Board.ChessBoard.ReadRankAt | js/board.js:94-96 | one rank read adds its pieces or reports its error |
| Board.ChessBoard.ParseFENRow | js/board.js:8-35 | parseFENRow succeeds exactly when the rank reads, creating its pieces left to right with consecutive ids; otherwise it throws the rank's error |
| Board.ChessBoard.AddPieceAt | js/board.js:17-24 | one letter creates a piece with the next id, puts it on its square, registers it and records it as its colour's king when it is a king |
| Board.ChessBoard.SetPiece | js/board.js:422-454 | setPiece returns the square's previous content and changes the state as Put does, keeping the tables sound |
| Board.ChessBoard.PieceIsAttacked | js/board.js:337-339 | pieceIsAttacked asks squareIsAttacked about the piece's recorded square for the other colour; a captured piece is treated as standing on row 0, file 0 |
| Board.ChessBoard.CheckMove | js/board.js:194-234 | doMove's checks compute Judge |
| Board.ChessBoard.DoMove | js/board.js:192-284 | doMove's result and new state are exactly Play's, so PlayRefused and PlayMoves apply; the tables stay sound, and in agreement when they were |
| Board.ChessBoard.CountMove | js/board.js:248-281 | the bookkeeping after a move sets the game fields as Played does and leaves the board alone |
| Board.ChessBoard.GetFEN | js/board.js:290-330 | getFEN writes the record the board holds, loadFEN reads that text back as the same record, and the text is canonical |
| Board.WriteCastling | js/board.js:317-325 | the key loop writes the castling text: the letters of the set flags in the order K, Q, k, q, or '-' when none is set |
| Board.WritePlacement | js/board.js:292-313 | the row loop writes the placement text of the grid's letters |
| Board.WriteRank | js/board.js:295-310 | the file loop appends the row's rank text, with each maximal run of empty squares as one count; for a row of piece letters that text has no '0' and no two digits side by side |

## Left out

- Strings are sequences of Unicode scalar values. JavaScript counts UTF-16 code units, so a castling field containing characters outside the Basic Multilingual Plane is measured differently.
- `toLowerCase` is modelled only for the characters that matter here: ASCII capitals, and the Kelvin sign, which lower-cases to 'k'. Other characters are kept as they are.
- The clock fields accept only an optional sign followed by decimal digits. Other `isNaN` and `parseInt` coercions are not modelled, such as the empty text, "1.5", "0x1A" and "1e3". The clocks are unbounded integers, not floating-point numbers.
- Board.ChessBoard.ParseFENRow: a letter past file 7 or after a white-space character is not modelled as creating a piece or growing a row. Such a rank always fails, so only the state after that failure differs.
- Board.ChessBoard.LoadFEN: after a rank fails, the contract states only that the tables stay sound. It does not say which pieces of the failing rank were already created.
- Board.ChessBoard.constructor: a new board starts from eight empty rows rather than from an empty array, because the first `loadFEN` empties every row anyway.
- The `setPieceCallback` hook and `setPieceCallbackFunction` call foreign code, so they are not modelled. The `do_callback` argument of `setPiece` is dropped with them.
- The `alert` on check in `doMove` is UI output. It is modelled as the `check` part of the move's outcome.
- A move to a board with no king of the other colour is modelled as the `KingMissing` error, returned after the piece has moved and before the game fields change. The source crashes at that point instead.
- Castling moves, en-passant captures, promotion and checkmate detection are not implemented by the source, so there is nothing to model.
- The rook branch of the castling bookkeeping compares a numeric file with the letters 'h' and 'a', so it never fires. The model keeps it as "a rook's move changes no flag", and the inverted 'Q'/'q' mapping inside that branch is therefore unobservable.
- `validMoves`' 'Unknown piece' branch is not modelled as code, because a piece's kind is always one of the six; Pieces.ValidPieceKinds states why.
- `getPieceSafe` is modelled for any row and file. The model does not capture that a row index that is not a number reads differently in JavaScript.
- Board.ChessBoard.SetPiece: it is only modelled for on-board squares, and for pieces the board made itself, which is how `doMove` uses it.
- Pieces are values rather than objects. A piece's row and file live in the board's `places` table, indexed by the piece's serial number. Aliasing between the grid, the registry and the kings table is captured through that serial, not through object identity.
- The DOM and jQuery front ends (js/functions.js, jQueryDemo.js) are not part of this model.
