# JavaChess engine core in Dafny

A model of the engine behind a small Java chess program. It covers:

- **Board, tiles and pieces.** The board is 64 tiles numbered a8 = 0 to h1 = 63. Each tile is empty or holds a piece, and a piece is a type, square, side and first-move flag.
- **Move generation.** Every piece class has its own move generation: the pawn's four offsets, the knight's eight jumps, the king's eight steps, and the bishop, rook and queen rays.
- **The `Move` family.** This covers its `equals`, `toString` and `execute` methods. `execute` rebuilds a board through `Board.Builder`, which is modelled as a class.
- **The two players.** Each has a king, legal moves (standard moves plus castles), check, checkmate and stalemate, and `makeMove` with its move transitions. `MoveFactory.createMove` is modelled too.
- **The engine.** This is the `StandardBoardEvaluator` and the `MiniMax` move strategy.

Modules follow the layering of the Java packages: `BoardUtils`, `Alliances`, `Pieces`, `Tiles`, `Boards` and `Moves` hold the value types. `PawnMoves`, `KnightMoves`, `KingMoves` and `SlidingMoves` (Bishop, Rook, Queen) generate moves. `MoveGeneration` dispatches on the piece class and runs `Board.calculateLegalMoves`. The remaining modules are:

- `Players`: Player, WhitePlayer, BlackPlayer.
- `Builders`: Board.Builder and createStandardBoard.
- `Execution`: Move.execute.
- `Transitions`: makeMove, escape moves, checkmate and stalemate, MoveFactory.
- `Evaluation`: StandardBoardEvaluator.
- `Search` and `MiniMax`.
- `Opening`: the moves of the starting position that `createStandardBoard` builds: twenty for each side, and no castle.

Each loop of the Java code that the model keeps is a `method` with a `while` loop; the exception is `calculateAttacksOnTile`, whose loop runs over its own empty list and which is the function `Players.AttacksOnTile`. It is proved equal to a function that states what the loop computes, and lemmas state what that function means:

- for move generation, the moves are exactly the geometric moves of the piece;
- for active pieces, the list is exactly the side's pieces, in square order;
- for the first-match scans, `Boards.EstablishKing` (the player's king) and `Transitions.CreateMove` (`MoveFactory.createMove`), the scan returns the first matching entry.

The board is immutable in the Java code: every getter returns the value the constructor computed. The model therefore keeps only the three fields the constructor reads: the tiles, the en-passant pawn and the side to move. Pieces, players and legal moves are functions of those fields.

Exceptions that the Java code throws become the `Err` branch of a `Result`:

- a board without a king for one side;
- Black's king-side rook that is not a `Rook` when it is cast;
- a missing side to move;
- executing the null move.

`MiniMax`'s `min`, `max` and `execute` loops are stated over the calls they make on a board. These calls are the legal moves of the side to move, `makeMove`, the checkmate and stalemate tests, the side, and `evaluate`. They are grouped as a record of functions, `Search.Rules`. `MiniMax.Standard` supplies the chess instance that the `MiniMax` constructor wires in. The search properties are proved once, for any rules that keep valid boards valid. `MiniMax.StandardIsPlayable` shows the chess instance is such a set of rules.

The model follows the code as written, including its defects. Each defect below is stated by a lemma:

- `calculateAttacksOnTile` iterates over its own empty result list, so no square is ever attacked and no player is ever in check or checkmate.
- Castling's `execute` keeps only the king, at its old square, of the castling side's pieces: the filter is inverted.
- `King.isEighthColumnExclusion` tests the second file.
- Every `movePiece` builds a piece whose first-move flag is true.
- `PawnPromotion.equals` compares its own fields with themselves, so it is always true.
- Black's king-side castle casts the piece on h8 to `Rook` without testing its type.
- `MiniMax.execute` returns `null`.

## Model

| member | source | states |
|---|---|---|
| BoardUtils.InColumn | Chess/src/elements/BoardUtils.java:30-41 | the table marks exactly the squares columnNumber, columnNumber + 8, … below 64 |
| BoardUtils.InRow | Chess/src/elements/BoardUtils.java:43-54 | the table marks exactly the squares from rowNumber up to the next multiple of 8 |
| BoardUtils.ColumnMarkIsFile | Chess/src/elements/BoardUtils.java:12-15 | a square is in the FIRST/SECOND/SEVENTH/EIGHTH_COLUMN table of file c iff its file is c |
| BoardUtils.RowMarkIsRow | Chess/src/elements/BoardUtils.java:17-24 | a square is in the rank table starting at r iff it lies in r..r+7, i.e. on row r/8 |
| BoardUtils.NotationIsFileThenRank | Chess/src/elements/BoardUtils.java:56-66 | the notation list has 64 entries and entry i is the file letter of i followed by its rank digit |
| BoardUtils.NotationInjective | Chess/src/elements/BoardUtils.java:56-66 | two squares have the same name iff they are the same square |
| BoardUtils.PositionMapUpToContents | Chess/src/elements/BoardUtils.java:68-74 | after n puts the map sends each of the first n names to its index, holds nothing else, and has n keys |
| BoardUtils.PositionToCoordinateKeys | Chess/src/elements/BoardUtils.java:68-74 | the finished map's keys are exactly the 64 square names |
| BoardUtils.InitializePositionToCoordinateMap | Chess/src/elements/BoardUtils.java:68-74 | the for loop builds exactly PositionToCoordinate |
| BoardUtils.GetPositionAtCoordinate | Chess/src/elements/BoardUtils.java:87-90 | the name of a square is its file letter and rank digit |
| BoardUtils.GetCoordinateAtPosition | Chess/src/elements/BoardUtils.java:82-85 | a found coordinate is a valid square with that name; nothing is found (the unboxing throws) iff the string is not a square name |
| BoardUtils.CoordinateRoundTrip | Chess/src/elements/BoardUtils.java:82-90 | getCoordinateAtPosition(getPositionAtCoordinate(i)) == i for every square |
| BoardUtils.PositionRoundTrip | Chess/src/elements/BoardUtils.java:82-90 | getPositionAtCoordinate(getCoordinateAtPosition(s)) == s for every square name |
| Alliances.OppositeDirection | Chess/src/elements/Alliance.java:35-77 | the opposite direction is the negated direction |
| Alliances.ChoosePlayer | Chess/src/elements/Alliance.java:29-71 | WHITE chooses the white player, BLACK the black one |
| Alliances.Opponent | Chess/src/elements/Alliance.java:67-71 | the opponent's side differs from the side |
| Alliances.DirectionTable | Chess/src/elements/Alliance.java:9-84 | White's direction is -1 and its opposite is 1, Black's are 1 and -1; every side is exactly one of white or black |
| Alliances.PromotionSquares | Chess/src/elements/Alliance.java:41-83 | White promotes exactly on squares 0..7 and Black exactly on 56..63 |
| Pieces.NewPiece | Chess/src/elements/Piece.java:13-20 | a piece made by a two-argument constructor has the given type, side and square and the first-move flag set |
| Pieces.PieceEquals | Chess/src/elements/Piece.java:31-42 | Piece.equals holds iff the two pieces agree on all four fields |
| Pieces.GetPromotionPiece | Chess/src/elements/Pawn.java:131-134 | the promotion piece is a Queen of the pawn's side on the pawn's square |
| Pieces.PieceTypeTable | Chess/src/elements/Piece.java:79-181 | isKing and isRook hold exactly for KING and ROOK; names are one letter; the values are 100, 300, 300, 500, 900 and 10000 |
| Pieces.NamesDistinct | Chess/src/elements/Piece.java:79-167 | two piece types print alike iff they are the same type |
| Pieces.PieceEqualsIsEquivalence | Chess/src/elements/Piece.java:31-42 | Piece.equals is reflexive, symmetric and transitive |
| Tiles.CreateAllPossibleEmptyTiles | Chess/src/elements/Tile.java:16-24 | the cache holds exactly the 64 squares, each mapped to the empty tile of that square |
| Tiles.CreateTile | Chess/src/elements/Tile.java:26-29 | a piece gives an occupied tile holding it; no piece gives the cached empty tile, or null off the board; the tile's coordinate and piece are the ones asked for |
| Tiles.TileToString | Chess/src/elements/Tile.java:53-87 | an empty tile prints "-", a white piece its letter, a black piece its letter in lower case; always one character |
| Boards.PieceOn | Chess/src/elements/Board.java:139-142 | the piece on an occupied tile stands on that tile's square |
| Boards.GameBoardFor | Chess/src/elements/Board.java:144-150 | 64 tiles, tile i has coordinate i and holds the builder's piece for i |
| Boards.CreateGameBoard | Chess/src/elements/Board.java:144-150 | the for loop builds exactly GameBoardFor |
| Boards.CalculateActivePieces | Chess/src/elements/Board.java:124-137 | the for loop over the tiles builds exactly ActivePiecesUpTo |
| Boards.ActivePiecesUpToSound | Chess/src/elements/Board.java:124-137 | every piece collected from the first n tiles is that side's piece, standing on its own square below n |
| Boards.ActivePiecesUpToSorted | Chess/src/elements/Board.java:124-137 | the collected pieces are in strictly increasing square order |
| Boards.ActivePiecesUpToComplete | Chess/src/elements/Board.java:124-137 | every piece of that side on the first n tiles is collected |
| Boards.ActivePiecesExact | Chess/src/elements/Board.java:124-137 | getWhitePieces/getBlackPieces are exactly the side's pieces on the board, in square order |
| Boards.FirstKing | Chess/src/players/Player.java:44-53 | the king found is a king of the list and the first one; none is found iff the list has no king |
| Boards.EstablishKing | Chess/src/players/Player.java:44-53 | the for loop returns exactly FirstKing of the active pieces |
| Boards.Pad3 | Chess/src/elements/Board.java:52 | "%3s" right-aligns a short string in three characters and leaves a longer one unchanged |
| Boards.BoardToString | Chess/src/elements/Board.java:45-57 | the StringBuilder loop builds exactly BoardTextUpTo(b, 64) |
| Boards.BoardTextLength | Chess/src/elements/Board.java:45-57 | after n tiles the text has 3n + n/8 characters |
| Boards.BoardTextCell | Chess/src/elements/Board.java:45-57 | tile i occupies positions 3i + i/8 .. 3i + i/8 + 2: two spaces and the tile's character |
| Boards.BoardTextNewline | Chess/src/elements/Board.java:53-54 | a newline follows every eighth tile |
| Boards.BoardTextLayout | Chess/src/elements/Board.java:45-57 | toString is 200 characters: eight rows of eight right-aligned three-character cells, each row ending in a newline |
| Moves.Promote | Chess/src/elements/Move.java:279-289 | a promotion wraps its decorated move and takes over its board, piece and destination |
| Moves.GetAttackedPiece | Chess/src/elements/Move.java:85-88 | there is an attacked piece iff the move is an attack (a promotion asks its decorated move) |
| Moves.DestinationsConcat | Chess/src/elements/Board.java:35-43 | the destinations of two concatenated move lists are the union of their destinations |
| Moves.MoveEqualsReflexive | Chess/src/elements/Move.java:46-57 | every move equals itself |
| Moves.MoveEqualsMeaning | Chess/src/elements/Move.java:46-57 | except for a promotion, equal moves share squares and moved piece; final classes only equal their own class; attacks agree on the attacked piece and castles on the rook |
| Moves.SameVariantEquality | Chess/src/elements/Move.java:116-253 | two moves of the same class, other than a promotion, are equal iff their piece, destination and attacked piece or rook agree |
| Moves.EqualsAsWritten | Chess/src/elements/Move.java:296-300 | PawnPromotion.equals is true for every argument; a PawnJump equals a MajorMove with its data, but not the other way round |
| Moves.MovePiece | Chess/src/elements/Pawn.java:126-129 | movePiece gives a piece of the same type and side on the destination, with the first-move flag set |
| Moves.MoveToString | Chess/src/elements/Move.java:130-239 | a move has its own rendering unless it is a plain AttackMove |
| Moves.MoveToStringNamesDestination | Chess/src/elements/Move.java:130-377 | renderings end (a promotion: begin) with the destination's name, which maps back to the destination; major moves start with the piece letter; pawn captures start with the file letter and "x"; promotions end with "=Q" |
| Moves.CastleStrings | Chess/src/elements/Move.java:466-490 | castles print as "O-O" and "O-O-O" |
| PawnMoves.CalculatePawnMoves | Chess/src/elements/Pawn.java:22-119 | the offset loop returns exactly PawnLegalMoves |
| PawnMoves.PushCandidateSound | Chess/src/elements/Pawn.java:34-44 | offset 8 gives at most one move, well shaped, and covers every single push |
| PawnMoves.JumpCandidateSound | Chess/src/elements/Pawn.java:45-52 | offset 16 gives at most one move, well shaped, and covers every double push |
| PawnMoves.DiagonalOffsets | Chess/src/elements/Pawn.java:54-56 | the offset 7 and 9 guards hold iff the target is a forward diagonal that does not wrap |
| PawnMoves.DiagonalIsCandidate | Chess/src/elements/Pawn.java:54-87 | every forward diagonal is reached by offset 7 or 9 |
| PawnMoves.CaptureCandidateSound | Chess/src/elements/Pawn.java:54-114 | offsets 7 and 9 give at most one well-shaped move and cover the capture or en-passant capture on their diagonal |
| PawnMoves.PawnMovesUpToSound | Chess/src/elements/Pawn.java:27-116 | after n offsets there are at most n moves, each well shaped, covering every offset's destinations |
| PawnMoves.PawnMovesExact | Chess/src/elements/Pawn.java:22-119 | at most four moves, each a push, double push, capture or en passant of the right kind (promoted exactly on the last rank), and the destinations are exactly the squares the pawn rules reach; none is held by the pawn's side |
| PawnMoves.PawnMovePiece | Chess/src/elements/Pawn.java:126-129 | a moved pawn is a Pawn of the same side on the destination with the first-move flag set |
| PawnMoves.PromotionPieceIsQueen | Chess/src/elements/Pawn.java:131-134 | the promotion piece is a Queen, first-move flag false, on the pawn's square |
| KnightMoves.CalculateKnightMoves | Chess/src/elements/Knight.java:22-59 | the offset loop returns exactly KnightLegalMoves |
| KnightMoves.ExclusionsPreventWrap | Chess/src/elements/Knight.java:72-90 | an on-board offset is excluded iff it is not a knight jump (it would wrap around the board edge) |
| KnightMoves.JumpIsCandidate | Chess/src/elements/Knight.java:10 | every knight jump is one of the eight candidate offsets |
| KnightMoves.KnightCandidateSound | Chess/src/elements/Knight.java:27-56 | each offset gives at most one well-shaped move and covers its target when the knight reaches it |
| KnightMoves.KnightMovesUpToLength | Chess/src/elements/Knight.java:27-57 | after n offsets there are at most n moves |
| KnightMoves.KnightMovesUpToShaped | Chess/src/elements/Knight.java:27-57 | every move so far is a major move or an attack on an enemy piece along a knight jump |
| KnightMoves.KnightMovesUpToCovers | Chess/src/elements/Knight.java:27-57 | every offset's destinations so far are among the moves' destinations |
| KnightMoves.KnightMovesUpToSound | Chess/src/elements/Knight.java:27-57 | the three facts above together |
| KnightMoves.KnightMovesExact | Chess/src/elements/Knight.java:22-59 | at most eight moves, each well shaped, and the destinations are exactly the knight jumps to squares not held by the knight's side |
| KingMoves.CalculateKingMoves | Chess/src/elements/King.java:26-60 | the offset loop returns exactly KingLegalMoves |
| KingMoves.ExclusionsAsWritten | Chess/src/elements/King.java:73-81 | an on-board offset survives the exclusions iff it is a king step as the code draws it (the file-h test reads the b-file table) |
| KingMoves.StepIsCandidate | Chess/src/elements/King.java:14 | every such step is one of the eight candidate offsets |
| KingMoves.KingCandidateSound | Chess/src/elements/King.java:31-57 | each offset gives at most one well-shaped move and covers its target |
| KingMoves.KingMovesUpToLength | Chess/src/elements/King.java:31-57 | after n offsets there are at most n moves |
| KingMoves.KingMovesUpToShaped | Chess/src/elements/King.java:31-57 | every move so far is a major move or an attack on an enemy piece |
| KingMoves.KingMovesUpToCovers | Chess/src/elements/King.java:31-57 | every offset's destinations so far are among the moves' destinations |
| KingMoves.KingMovesUpToSound | Chess/src/elements/King.java:31-57 | the three facts above together |
| KingMoves.KingMovesExact | Chess/src/elements/King.java:26-60 | at most eight moves, each well shaped; the destinations are exactly the steps as written to squares not held by the king's side |
| KingMoves.KingMovesCorrectOffEdgeFiles | Chess/src/elements/King.java:26-60 | off the b- and h-files the destinations are exactly the true one-square king steps to squares not held by its side |
| KingMoves.KingEdgeDefects | Chess/src/elements/King.java:78-81 | on the h-file the king's "+1" move wraps onto the next row's a-file; on the b-file its true step to the c-file is missing |
| SlidingMoves.Offsets | Chess/src/elements/Queen.java:15 | every bishop, rook and queen offset is a one-square step |
| SlidingMoves.CalculateSlidingMoves | Chess/src/elements/Bishop.java:22-66 | the nested offset and ray loops return exactly SlidingLegalMoves |
| SlidingMoves.Neighbour | Chess/src/elements/Bishop.java:31-41 | the neighbour along an offset is a valid square |
| SlidingMoves.NeighbourCoords | Chess/src/elements/Bishop.java:39 | the neighbour's file and row change by the offset's file and row step |
| SlidingMoves.ExclusionsPreventWrap | Chess/src/elements/Bishop.java:74-82 | a step is neither excluded nor off the board iff it has a true neighbour along the line, which is then cur + offset |
| SlidingMoves.RayExact | Chess/src/elements/Bishop.java:29-62 | a ray's moves are well shaped, all but the last are major moves, and its destinations are exactly the squares the line reaches before and including the first occupied one (when it holds an enemy) |
| SlidingMoves.SlidingMovesUpToShaped | Chess/src/elements/Bishop.java:27-63 | every move of the first n rays is well shaped |
| SlidingMoves.SlidingMovesUpToReaches | Chess/src/elements/Bishop.java:27-63 | the destinations of the first n rays are exactly what those rays reach |
| SlidingMoves.SlidingMovesExact | Chess/src/elements/Bishop.java:22-66 | every move is well shaped, and the destinations are exactly the squares some ray reaches |
| SlidingMoves.ReachesAlongLine | Chess/src/elements/Bishop.java:31-62 | a reached square is k ≥ 1 steps along the line and not held by the piece's side |
| SlidingMoves.StepsShape | Chess/src/elements/Rook.java:14 | k rook steps change the file or the row but not both; k bishop steps change both by k |
| SlidingMoves.SlidingLines | Chess/src/elements/Rook.java:27-70 | a rook moves along a file or a row, a bishop along a diagonal, a queen along either, never onto its own side or its own square |
| SlidingMoves.QueenIsRookPlusBishop | Chess/src/elements/Queen.java:15 | the queen reaches exactly the squares a rook or a bishop on its square would reach |
| MoveGeneration.CalculatePieceMoves | Chess/src/elements/Piece.java:77 | dispatching on the piece class gives exactly PieceLegalMoves |
| MoveGeneration.ActivePiecesOnBoard | Chess/src/elements/Board.java:23-24 | every active piece stands on a valid square |
| MoveGeneration.CalculateLegalMoves | Chess/src/elements/Board.java:35-43 | the loop concatenates the pieces' moves in order, exactly MovesOfPieces |
| MoveGeneration.PieceMovesSound | Chess/src/elements/Piece.java:77 | every move of a piece is a move of that piece by its own class's rules |
| MoveGeneration.MovesOfPiecesSound | Chess/src/elements/Board.java:35-43 | every collected move comes from one of the pieces |
| MoveGeneration.StandardMovesSound | Chess/src/elements/Board.java:27-28 | every standard move of a side is a real move of one of that side's active pieces |
| MoveGeneration.MovesOfPiecesComplete | Chess/src/elements/Board.java:35-43 | every move of every piece is collected |
| Players.AttacksOnTile | Chess/src/players/Player.java:33-42 | every reported attack is an opponent move ending on the square |
| Players.AttacksOnTileAsWritten | Chess/src/players/Player.java:35-40 | an opponent move ending on the square is not reported, because the loop iterates over the empty result list |
| Players.WhiteCastlesExact | Chess/src/players/WhitePlayer.java:37-70 | White's castles are the king-side castle exactly when f1, g1 are empty and an unmoved Rook stands on h1, followed by the queen-side castle exactly when b1-d1 are empty and an unmoved Rook stands on a1 (with an unmoved king) |
| Players.BlackCastlesExact | Chess/src/players/BlackPlayer.java:40-72 | Black's castles fail (the cast throws) exactly when the king-side conditions hold with a non-Rook on h8; otherwise the same two castles as White's on rank 8, the king side with no type test |
| Players.CastlesShape | Chess/src/players/Player.java:19 | at most two castles, each a castle of that side's unmoved king to the right squares |
| Players.WhiteCastlesShape | Chess/src/players/WhitePlayer.java:38-70 | White has at most two castles, each of the unmoved king with the unmoved Rook of its corner, landing two files over |
| Players.BlackCastlesShape | Chess/src/players/BlackPlayer.java:41-72 | when Black's castles do not fail there are at most two, each of the unmoved king with the unmoved Rook of its corner, landing two files over |
| Players.NeverInCheck | Chess/src/players/Player.java:20 | as written no player is ever in check |
| Players.PlayersArePartition | Chess/src/elements/Board.java:23-24 | every piece on the board is an active piece of its own side and not of the other |
| Builders.BuildSpec | Chess/src/elements/Board.java:20-33 | a built board is valid and holds the builder's tiles, side to move and en-passant pawn |
| Builders.BuildFailures | Chess/src/elements/Board.java:20-33 | build succeeds iff both sides have a king, Black's king-side rook cast does not fail, and a side to move is set; the tiles are the builder's map |
| Builders.Builder.constructor | Chess/src/elements/Board.java:96-99 | a new builder has an empty map and no side or en-passant pawn |
| Builders.Builder.SetPiece | Chess/src/elements/Board.java:101-105 | setPiece puts the piece under its own square and changes nothing else |
| Builders.Builder.SetMoveMaker | Chess/src/elements/Board.java:107-111 | setMoveMaker sets the side to move and changes nothing else |
| Builders.Builder.SetEnPassantPawn | Chess/src/elements/Board.java:118-121 | setEnPassantPawn sets the pawn and changes nothing else |
| Builders.Builder.Build | Chess/src/elements/Board.java:113-116 | build returns exactly BuildSpec of the builder's state |
| Builders.StandardPiece | Chess/src/elements/Board.java:152-191 | the starting pieces stand on a8..h7 (Black) and a2..h1 (White), each on its own square and not yet moved |
| Builders.StandardConfigLayout | Chess/src/elements/Board.java:152-191 | the standard map holds the back ranks R N B Q K B N R and the pawn ranks for both sides, and nothing else |
| Builders.ValidWhenF8Blocked | Chess/src/elements/Board.java:20-33 | a board with both kings passes the constructor's checks when f8 is occupied, since Black's king-side castle then never casts the h8 piece to Rook |
| Builders.StandardBoardBuilds | Chess/src/elements/Board.java:152-195 | the standard map with White to move builds the standard board, whose tiles hold the standard pieces |
| Builders.CreateStandardBoard | Chess/src/elements/Board.java:152-195 | the sequence of setPiece calls returns the standard board |
| Execution.SetAll | Chess/src/elements/Move.java:97-102 | setting keyed pieces keeps the map keyed by square |
| Execution.SetAllLookup | Chess/src/elements/Move.java:97-108 | after a loop of setPiece calls a square holds the last kept piece put there, or what it held before |
| Execution.ActiveLastKept | Chess/src/elements/Move.java:97-102 | over a side's active pieces the last kept piece on a square is the piece on that square, when it is that side's and kept |
| Execution.ConfigAfterLoops | Chess/src/elements/Move.java:95-108 | the builder's map after the two loops is keyed by square |
| Execution.ConfigAfterLoopsLookup | Chess/src/elements/Move.java:95-108 | after the two loops a square holds the board's piece iff the filter of that piece's side keeps it |
| Execution.ExecuteSpec | Chess/src/elements/Move.java:95-113 | the null move throws; a built board is valid and the other side is to move |
| Execution.SetPieces | Chess/src/elements/Move.java:97-102 | the for loop of setPiece calls leaves exactly SetAll in the builder and touches nothing else |
| Execution.Execute | Chess/src/elements/Move.java:95-113 | execute of every move class returns exactly ExecuteSpec |
| Execution.ExecutedLookup | Chess/src/elements/Move.java:110-112 | the built board's square holds what the builder's map holds |
| Execution.PlainConfigSquare | Chess/src/elements/Move.java:95-113 | after a plain move the map holds the moved piece on the destination, nothing on the origin and the old piece elsewhere |
| Execution.EnPassantConfigSquare | Chess/src/elements/Move.java:256-276 | after en passant the map also drops the captured pawn |
| Execution.ExecutePlainMove | Chess/src/elements/Move.java:95-113 | a plain move places the moved piece on the destination, empties the origin, keeps every other square and passes the turn; a pawn jump records the jumped pawn as en-passant pawn |
| Execution.ExecuteEnPassant | Chess/src/elements/Move.java:256-276 | en passant also empties the captured pawn's square |
| Execution.CastleConfigSquare | Chess/src/elements/Move.java:408-424 | after a castle the map holds the rook and king on their new squares, the king also on its old square, the opponent's pieces, and nothing else |
| Execution.CastleSquare | Chess/src/elements/Move.java:408-424 | the same, square by square, for the built board |
| Execution.ExecuteCastleAsWritten | Chess/src/elements/Move.java:408-424 | castling keeps the castled king and rook, a copy of the king on its old square and the opponent's pieces, and drops every other piece of the castling side |
| Execution.ExecutePromotion | Chess/src/elements/Move.java:303-322 | a promotion executes the pawn move, then puts a Queen of the pawn's side on the destination and keeps every other square of that board |
| Execution.ExecuteNullMove | Chess/src/elements/Move.java:500-504 | executing the null move throws |
| Transitions.PieceMovesExecutable | Chess/src/elements/Piece.java:77 | every generated move of a piece can be executed |
| Transitions.MovesOfPiecesExecutable | Chess/src/elements/Board.java:35-43 | every collected move can be executed |
| Transitions.LegalMovesExecutable | Chess/src/players/Player.java:19 | every legal move of a player, castles included, can be executed |
| Transitions.MakeMove | Chess/src/players/Player.java:92-107 | a transition records its move; a DONE transition holds a valid board with the other side to move; any other keeps the board |
| Transitions.MakeIllegalMove | Chess/src/players/Player.java:94-95 | a move not in the legal list gives ILLEGAL_MOVE on the same board |
| Transitions.MakeLegalMove | Chess/src/players/Player.java:97-106 | a legal move gives DONE on the executed board, or the exception execute throws |
| Transitions.LegalMovesAreLegal | Chess/src/players/Player.java:55-58 | every legal move is legal, and so is every promotion, because PawnPromotion.equals is always true |
| Transitions.LegalMovesNotNull | Chess/src/players/Player.java:19 | no legal move is the null move |
| Transitions.NullMoveIllegal | Chess/src/players/Player.java:55-58 | the null move is never legal |
| Transitions.LegalTransitions | Chess/src/players/Player.java:80-89 | one transition per legal move, and each DONE one holds a valid board |
| Transitions.CalculateEscapeMoves | Chess/src/players/Player.java:80-89 | the loop returns exactly HasEscapeMoves |
| Transitions.EscapeFromMeaning | Chess/src/players/Player.java:80-89 | no escape iff every transition succeeds without being DONE; an escape means some transition is DONE |
| Transitions.MateExcludesStalemate | Chess/src/players/Player.java:65-73 | checkmate and stalemate never both hold, and either means no transition is DONE |
| Transitions.MateAndStalemate | Chess/src/players/Player.java:65-73 | a player is never in both checkmate and stalemate, and stalemate holds iff there is no escape move |
| Transitions.NeverCheckmated | Chess/src/players/Player.java:65-68 | as written no player is ever checkmated |
| Transitions.CreateMove | Chess/src/elements/Move.java:520-530 | the loop returns exactly CreateMoveSpec |
| Transitions.FirstMatchMeaning | Chess/src/elements/Move.java:520-530 | the scan returns the first move with those squares, or the null move iff there is none |
| Transitions.CreateMoveMeaning | Chess/src/elements/Move.java:520-530 | createMove returns the first legal move of the side to move with those squares, or NULL_MOVE iff there is none |
| Evaluation.PieceValue | Chess/src/engine/StandardBoardEvaluator.java:50-58 | the loop returns the material sum of the pieces |
| Evaluation.MaterialBounds | Chess/src/engine/StandardBoardEvaluator.java:50-58 | material lies between 100 and 10000 per piece, and a king adds at least 10000 |
| Evaluation.MaterialOfValidBoard | Chess/src/engine/StandardBoardEvaluator.java:50-58 | each side of a valid board has material of at least 10000 |
| Evaluation.DepthBonus | Chess/src/engine/StandardBoardEvaluator.java:40-43 | the depth bonus is positive for every depth ≥ 0, and 100 * depth above 0 |
| Evaluation.CheckTermsVanish | Chess/src/engine/StandardBoardEvaluator.java:30-38 | as written the check and checkmate bonuses are always 0 |
| Evaluation.ScorePlayerAsWritten | Chess/src/engine/StandardBoardEvaluator.java:19-23 | a player's score is material plus mobility |
| Evaluation.ScoreWithoutBonuses | Chess/src/engine/StandardBoardEvaluator.java:19-23 | without check and checkmate bonuses the score is material plus mobility plus the castle bonus |
| Evaluation.EvaluateIsScoreDifference | Chess/src/engine/StandardBoardEvaluator.java:12-17 | evaluate is White's score minus Black's |
| Search.Transitions | Chess/src/engine/MiniMax.java:76-78 | one transition per legal move, each DONE one on a valid board |
| Search.MinSteps | Chess/src/engine/MiniMax.java:76-86 | one step per transition |
| Search.MaxSteps | Chess/src/engine/MiniMax.java:96-106 | one step per transition |
| Search.RootSteps | Chess/src/engine/MiniMax.java:34-58 | one step per legal move |
| Search.LowestFoldMeaning | Chess/src/engine/MiniMax.java:76-87 | the loop fails iff some step fails; otherwise it returns the smallest scored value, or the start value when none is smaller |
| Search.HighestFoldMeaning | Chess/src/engine/MiniMax.java:96-107 | the loop fails iff some step fails; otherwise it returns the largest scored value, or the start value when none is larger |
| Search.LeafIsEvaluated | Chess/src/engine/MiniMax.java:72-75 | at depth 0 or at the end of the game min and max return evaluate |
| Search.MaxIsBestChild | Chess/src/engine/MiniMax.java:90-108 | max is at least min of every DONE child, and it equals one of them unless it is MIN_VALUE |
| Search.MinIsWorstChild | Chess/src/engine/MiniMax.java:70-88 | min is at most max of every DONE child, and it equals one of them unless it is MAX_VALUE |
| Search.WhiteBestFold | Chess/src/engine/MiniMax.java:46-50 | White's root loop tracks the highest value and the last move that reaches it (ties go to the later move) |
| Search.BlackBestFold | Chess/src/engine/MiniMax.java:51-55 | Black's root loop tracks the lowest value and the last move that reaches it |
| MiniMax.Min | Chess/src/engine/MiniMax.java:70-88 | min returns exactly MinSpec |
| MiniMax.Max | Chess/src/engine/MiniMax.java:90-108 | max returns exactly MaxSpec |
| MiniMax.Execute | Chess/src/engine/MiniMax.java:25-62 | execute fails exactly when the search fails, and otherwise returns null, whatever the best move was |
| MiniMax.OutcomeOf | Chess/src/engine/MiniMax.java:40-42 | the search reads a transition's board and whether its status is DONE |
| MiniMax.StandardIsPlayable | Chess/src/engine/MiniMax.java:12-16 | the chess instance is defined on every valid board, and DONE transitions lead to valid boards |
| MiniMax.StandardEndGameIsStalemate | Chess/src/engine/MiniMax.java:64-68 | for chess, isEndGameScenario is exactly the stalemate test |
| Opening.PawnOpening | Chess/src/elements/Pawn.java:22-119 | a starting pawn has exactly its one-square push and its two-square jump, in that order, and no capture |
| Opening.KnightOpening | Chess/src/elements/Knight.java:22-59 | a starting knight has exactly its two forward jumps, in offset order |
| Opening.BackRankBlocked | Chess/src/elements/King.java:26-60 | the starting king, rooks, bishops and queen have no move: every neighbouring square on the board holds a piece of their own side |
| Opening.StartingActivePieces | Chess/src/elements/Board.java:124-137 | in the starting position a side's active pieces are its sixteen starting pieces, in square order |
| Opening.OpeningCountTwenty | Chess/src/elements/Board.java:152-191 | the sixteen starting pieces of a side have twenty moves between them |
| Opening.StartingMoves | Chess/src/elements/Board.java:35-43 | a side's standard moves in the starting position are each starting piece's moves in square order: eight pushes, eight jumps and four knight moves, twenty in all |
| Opening.WhiteCastlesBlocked | Chess/src/players/WhitePlayer.java:38-70 | with b1 and f1 occupied White has no castle |
| Opening.BlackCastlesBlocked | Chess/src/players/BlackPlayer.java:41-72 | with b8 and f8 occupied Black has no castle and no failure |
| Opening.StandardBoardCastles | Chess/src/elements/Board.java:152-195 | on the standard board neither side can castle |
| Opening.StandardBoardMoves | Chess/src/elements/Board.java:152-195 | on the standard board each side has twenty standard moves, no castle and twenty legal moves |

## Left out

- The GUI (`Chess/src/gui`) and its callers are not part of this model.
- `players/MoveTransition.java` and `players/MoveStatus.java` are not part of this model. Their shape (board, move, status; `isDone` true only for DONE) is taken from their use in `Player.java`.
- `hashCode` of pieces and moves is not modelled. Equality is modelled by the `equals` methods, and `Player.isMoveLegal` uses `equals` through `contains`.
- Object identity is not modelled: the `this == other` shortcuts of `equals`, the identity of the cached empty tiles, and the unmodifiable wrappers. Values are immutable here, so none of these changes a result.
- Java `int` overflow is not modelled; integers are unbounded. `Integer.MIN_VALUE` and `Integer.MAX_VALUE` are kept as the loop sentinels of `MiniMax`.
- The timing of `MiniMax.execute` is left out: `System.currentTimeMillis` and the printed progress have no effect on the result.
- The `MoveStrategy` and `BoardEvaluator` interfaces are not modelled as types. `Search.Rules` takes their place for the calls `MiniMax` makes.
- The player and standard-move lists the Board constructor caches are recomputed as functions of the board wherever they are read.
- Transitions.MakeMove: requires the move to be one that can be executed (`Execution.Executable`). That predicate asks two things only: a `PawnJump` moves a Pawn, and a `PawnPromotion` wraps a plain pawn move on the same board. It excludes a `PawnJump` of another piece, for which the `(Pawn)` cast in `PawnJump.execute` would throw `ClassCastException`, and a malformed promotion. Every move the players generate satisfies it (`Transitions.LegalMovesExecutable`).
- MiniMax.Execute: requires searchDepth ≥ 1. The Java constructor accepts any int; with a depth of 0 or less, `min` and `max` recurse past 0, their `depth == 0` test never fires, and only an end-game board stops the recursion.
- MiniMax.Execute: does not return the best move, because the Java method returns `null`. Search.WhiteBestFold and Search.BlackBestFold state what the loop tracks.
- Players.IsInCheck: the castle methods read `isInCheck` before the constructor assigns it, so they see `false`. The castle functions reproduce this read: they use `Players.IN_CHECK_DURING_CONSTRUCTION`, which is `false`. `Players.IsInCheck` is the value the constructor assigns afterwards. By `Players.NeverInCheck` that value is also `false`, so the two agree.
- BoardUtils.InColumn: requires a start square on the board. The Java code is only called with 0, 1, 6 and 7; another start would index out of bounds.
- BoardUtils.InRow: requires a start square on the board. The Java code is only called with 0, 8, …, 56; another start would index out of bounds.
- The null move's `equals` is modelled as "the other move is the null move". In the Java code it compares squares, and a move of a piece standing on square -1 would reach a null dereference; no generated piece stands there.
