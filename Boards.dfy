/** A position: 64 tiles, the pawn that may be taken en passant, and the side
    to move. Everything else the Java Board caches (the piece lists, the move
    lists, the two players) is a function of these three fields. */
module Boards {
  import opened Wrappers
  import opened BoardUtils
  import opened Alliances
  import opened Pieces
  import opened Tiles

  datatype Board = Board(gameBoard: seq<Tile>, enPassantPawn: Option<Piece>, nextMoveMaker: Alliance)

  /** The exceptions the engine can raise, as values: building a board whose
      side has no King, Black's king-side castle casting a non-Rook on square 7
      to Rook, building without a side to move, and executing the null move. */
  datatype Failure = MissingKing(side: Alliance) | CastleRookNotARook | MissingMoveMaker | NullMoveExecuted

  /** What Board's constructor establishes: 64 tiles, tile i has coordinate i,
      and a piece on tile i stands on square i (the builder keys pieces by square). */
  predicate WellFormed(b: Board)
  {
    |b.gameBoard| == NUM_TILES &&
    forall i :: 0 <= i < NUM_TILES ==>
      b.gameBoard[i].tileCoord == i &&
      (b.gameBoard[i].OccupiedTile? ==> b.gameBoard[i].pieceOnTile.piecePosition == i)
  }

  function GetTile(b: Board, tileCoord: int): Tile
    requires WellFormed(b) && IsValidTileCoord(tileCoord)
  {
    b.gameBoard[tileCoord]
  }

  predicate IsOccupied(b: Board, tileCoord: int)
    requires WellFormed(b) && IsValidTileCoord(tileCoord)
  {
    GetTile(b, tileCoord).IsTileOccupied()
  }

  function PieceOn(b: Board, tileCoord: int): (p: Piece)
    requires WellFormed(b) && IsValidTileCoord(tileCoord) && IsOccupied(b, tileCoord)
    ensures p.piecePosition == tileCoord
  {
    GetTile(b, tileCoord).pieceOnTile
  }

  /** A square holding a piece of the other side. */
  predicate IsEnemyOn(b: Board, tileCoord: int, a: Alliance)
    requires WellFormed(b) && IsValidTileCoord(tileCoord)
  {
    IsOccupied(b, tileCoord) && PieceOn(b, tileCoord).pieceAlliance != a
  }

  /** A square holding a piece of side a. */
  predicate IsOwnOn(b: Board, tileCoord: int, a: Alliance)
    requires WellFormed(b) && IsValidTileCoord(tileCoord)
  {
    IsOccupied(b, tileCoord) && PieceOn(b, tileCoord).pieceAlliance == a
  }

  // ---------------------------------------------------------------------------
  // createGameBoard

  /** A builder's square-to-piece map; setPiece keys every piece by its own square. */
  predicate KeyedBySquare(config: map<int, Piece>)
  {
    forall k :: k in config ==> config[k].piecePosition == k
  }

  function Lookup(config: map<int, Piece>, k: int): Option<Piece>
  {
    if k in config then Some(config[k]) else None
  }

  /** The tiles createGameBoard builds: tile i holds the map's piece for i, if any. */
  function GameBoardFor(config: map<int, Piece>): (tiles: seq<Tile>)
    ensures |tiles| == NUM_TILES
    ensures forall i :: 0 <= i < NUM_TILES ==> tiles[i].tileCoord == i && tiles[i].GetPiece() == Lookup(config, i)
  {
    seq(NUM_TILES, i requires 0 <= i < NUM_TILES => CreateTile(i, Lookup(config, i)).value)
  }

  lemma GameBoardWellFormed(config: map<int, Piece>, ep: Option<Piece>, mover: Alliance)
    requires KeyedBySquare(config)
    ensures WellFormed(Board(GameBoardFor(config), ep, mover))
  {
  }

  method CreateGameBoard(config: map<int, Piece>) returns (gameBoard: seq<Tile>)
    ensures gameBoard == GameBoardFor(config)
  {
    var tiles := new Tile[NUM_TILES];
    var i := 0;
    while i < NUM_TILES
      invariant 0 <= i <= NUM_TILES
      invariant forall k :: 0 <= k < i ==> tiles[k] == GameBoardFor(config)[k]
    {
      var piece := if i in config then Some(config[i]) else None;
      tiles[i] := CreateTile(i, piece).value;
      i := i + 1;
    }
    gameBoard := tiles[..];
  }

  // ---------------------------------------------------------------------------
  // calculateActivePieces

  /** The pieces of one side among the first n tiles, in tile order. */
  function ActivePiecesUpTo(gameBoard: seq<Tile>, a: Alliance, n: int): seq<Piece>
    requires 0 <= n <= |gameBoard|
  {
    if n == 0 then []
    else
      var t := gameBoard[n - 1];
      ActivePiecesUpTo(gameBoard, a, n - 1) +
      (if t.IsTileOccupied() && t.pieceOnTile.pieceAlliance == a then [t.pieceOnTile] else [])
  }

  /** getWhitePieces / getBlackPieces. */
  function ActivePieces(b: Board, a: Alliance): seq<Piece>
  {
    ActivePiecesUpTo(b.gameBoard, a, |b.gameBoard|)
  }

  method CalculateActivePieces(gameBoard: seq<Tile>, a: Alliance) returns (activePieces: seq<Piece>)
    ensures activePieces == ActivePiecesUpTo(gameBoard, a, |gameBoard|)
  {
    activePieces := [];
    var i := 0;
    while i < |gameBoard|
      invariant 0 <= i <= |gameBoard|
      invariant activePieces == ActivePiecesUpTo(gameBoard, a, i)
    {
      var tile := gameBoard[i];
      if tile.IsTileOccupied() {
        var piece := tile.pieceOnTile;
        if piece.pieceAlliance == a {
          activePieces := activePieces + [piece];
        }
      }
      i := i + 1;
    }
  }

  /** Each listed piece stands, on its own square, among the first n tiles. */
  lemma {:induction false} ActivePiecesUpToSound(b: Board, a: Alliance, n: int)
    requires WellFormed(b) && 0 <= n <= NUM_TILES
    ensures forall k :: 0 <= k < |ActivePiecesUpTo(b.gameBoard, a, n)| ==>
      var p := ActivePiecesUpTo(b.gameBoard, a, n)[k];
      0 <= p.piecePosition < n && IsOccupied(b, p.piecePosition) &&
      PieceOn(b, p.piecePosition) == p && p.pieceAlliance == a
  {
    if n > 0 {
      ActivePiecesUpToSound(b, a, n - 1);
      var prev := ActivePiecesUpTo(b.gameBoard, a, n - 1);
      var list := ActivePiecesUpTo(b.gameBoard, a, n);
      forall k | 0 <= k < |list|
        ensures 0 <= list[k].piecePosition < n && IsOccupied(b, list[k].piecePosition) &&
          PieceOn(b, list[k].piecePosition) == list[k] && list[k].pieceAlliance == a
      {
        if k < |prev| {
          assert list[k] == prev[k];
        }
      }
    }
  }

  /** The list is in ascending square order. */
  lemma {:induction false} ActivePiecesUpToSorted(b: Board, a: Alliance, n: int)
    requires WellFormed(b) && 0 <= n <= NUM_TILES
    ensures forall j, k :: 0 <= j < k < |ActivePiecesUpTo(b.gameBoard, a, n)| ==>
      ActivePiecesUpTo(b.gameBoard, a, n)[j].piecePosition < ActivePiecesUpTo(b.gameBoard, a, n)[k].piecePosition
  {
    if n > 0 {
      ActivePiecesUpToSorted(b, a, n - 1);
      ActivePiecesUpToSound(b, a, n - 1);
      var prev := ActivePiecesUpTo(b.gameBoard, a, n - 1);
      var list := ActivePiecesUpTo(b.gameBoard, a, n);
      forall j, k | 0 <= j < k < |list|
        ensures list[j].piecePosition < list[k].piecePosition
      {
        assert list[j] == prev[j];
        if k < |prev| {
          assert list[k] == prev[k];
        }
      }
    }
  }

  /** Every piece of side a among the first n tiles is listed. */
  lemma {:induction false} ActivePiecesUpToComplete(b: Board, a: Alliance, n: int)
    requires WellFormed(b) && 0 <= n <= NUM_TILES
    ensures forall s :: 0 <= s < n && IsOccupied(b, s) && PieceOn(b, s).pieceAlliance == a ==>
      PieceOn(b, s) in ActivePiecesUpTo(b.gameBoard, a, n)
  {
    if n > 0 {
      ActivePiecesUpToComplete(b, a, n - 1);
      var prev := ActivePiecesUpTo(b.gameBoard, a, n - 1);
      var list := ActivePiecesUpTo(b.gameBoard, a, n);
      assert list[..|prev|] == prev;
      forall s | 0 <= s < n && IsOccupied(b, s) && PieceOn(b, s).pieceAlliance == a
        ensures PieceOn(b, s) in list
      {
        if s < n - 1 {
          assert PieceOn(b, s) in prev;
        } else {
          assert list[|prev|] == PieceOn(b, s);
        }
      }
    }
  }

  /** The active pieces of a side are exactly its pieces on the board, in
      ascending square order. */
  lemma ActivePiecesExact(b: Board, a: Alliance)
    requires WellFormed(b)
    ensures forall p :: p in ActivePieces(b, a) ==>
      0 <= p.piecePosition < NUM_TILES && IsOccupied(b, p.piecePosition) &&
      PieceOn(b, p.piecePosition) == p && p.pieceAlliance == a
    ensures forall j, k :: 0 <= j < k < |ActivePieces(b, a)| ==>
      ActivePieces(b, a)[j].piecePosition < ActivePieces(b, a)[k].piecePosition
    ensures forall s :: 0 <= s < NUM_TILES && IsOccupied(b, s) && PieceOn(b, s).pieceAlliance == a ==>
      PieceOn(b, s) in ActivePieces(b, a)
  {
    ActivePiecesUpToSound(b, a, NUM_TILES);
    ActivePiecesUpToSorted(b, a, NUM_TILES);
    ActivePiecesUpToComplete(b, a, NUM_TILES);
    forall p | p in ActivePieces(b, a)
      ensures 0 <= p.piecePosition < NUM_TILES && IsOccupied(b, p.piecePosition) &&
        PieceOn(b, p.piecePosition) == p && p.pieceAlliance == a
    {
      var k :| 0 <= k < |ActivePieces(b, a)| && ActivePieces(b, a)[k] == p;
    }
  }

  // ---------------------------------------------------------------------------
  // Player.establishKing: the first King among a side's pieces

  /** Index i holds a King and no earlier index does. */
  predicate FirstKingAt(pieces: seq<Piece>, i: int)
  {
    0 <= i < |pieces| && pieces[i].pieceType.IsKing() &&
    forall j :: 0 <= j < i ==> !pieces[j].pieceType.IsKing()
  }

  function FirstKing(pieces: seq<Piece>): (king: Option<Piece>)
    ensures king.Some? ==> king.value in pieces && king.value.pieceType.IsKing()
    ensures king.Some? ==> exists i :: FirstKingAt(pieces, i) && pieces[i] == king.value
    ensures king.None? <==> forall p :: p in pieces ==> !p.pieceType.IsKing()
  {
    if pieces == [] then None
    else if pieces[0].pieceType.IsKing() then Some(pieces[0])
    else
      var rest := FirstKing(pieces[1..]);
      if rest.Some? then
        ghost var i :| FirstKingAt(pieces[1..], i) && pieces[1..][i] == rest.value;
        assert FirstKingAt(pieces, i + 1) && pieces[i + 1] == rest.value;
        rest
      else
        assert forall p :: p in pieces ==> p == pieces[0] || p in pieces[1..];
        rest
  }

  method EstablishKing(activePieces: seq<Piece>) returns (king: Option<Piece>)
    ensures king == FirstKing(activePieces)
  {
    var i := 0;
    while i < |activePieces|
      invariant 0 <= i <= |activePieces|
      invariant FirstKing(activePieces) == FirstKing(activePieces[i..])
    {
      var piece := activePieces[i];
      if piece.pieceType.IsKing() {
        return Some(piece);
      }
      assert activePieces[i..][1..] == activePieces[i + 1..];
      i := i + 1;
    }
    return None;
  }

  predicate HasKing(b: Board, a: Alliance)
  {
    FirstKing(ActivePieces(b, a)).Some?
  }

  /** getPlayerKing of the player for side a. */
  function PlayerKing(b: Board, a: Alliance): Piece
    requires HasKing(b, a)
  {
    FirstKing(ActivePieces(b, a)).value
  }

  // ---------------------------------------------------------------------------
  // toString

  /** String.format("%3s", s): right-aligned in a field of width 3. */
  function Pad3(s: string): (r: string)
    ensures |s| <= 3 ==> |r| == 3 && r[3 - |s|..] == s && forall k :: 0 <= k < 3 - |s| ==> r[k] == ' '
    ensures |s| > 3 ==> r == s
  {
    if |s| >= 3 then s else seq(3 - |s|, _ => ' ') + s
  }

  /** The text of the first n tiles, a newline after every eighth. */
  function BoardTextUpTo(b: Board, n: int): string
    requires 0 <= n <= |b.gameBoard|
  {
    if n == 0 then ""
    else
      BoardTextUpTo(b, n - 1) + Pad3(TileToString(b.gameBoard[n - 1])) + (if n % 8 == 0 then "\n" else "")
  }

  method BoardToString(b: Board) returns (text: string)
    requires WellFormed(b)
    ensures text == BoardTextUpTo(b, NUM_TILES)
  {
    text := "";
    var i := 0;
    while i < NUM_TILES
      invariant 0 <= i <= NUM_TILES
      invariant text == BoardTextUpTo(b, i)
    {
      var tileText := TileToString(b.gameBoard[i]);
      text := text + Pad3(tileText);
      if (i + 1) % 8 == 0 {
        text := text + "\n";
      }
      i := i + 1;
    }
  }

  /** Each tile adds a three-character cell, each eighth tile a newline. */
  lemma {:induction false} BoardTextLength(b: Board, n: int)
    requires 0 <= n <= |b.gameBoard|
    ensures |BoardTextUpTo(b, n)| == 3 * n + n / 8
  {
    if n > 0 {
      BoardTextLength(b, n - 1);
      assert n / 8 == (n - 1) / 8 + (if n % 8 == 0 then 1 else 0);
    }
  }

  /** A cell of the first n - 1 tiles lies inside their text. */
  lemma EarlierCell(n: int, i: int)
    requires 0 <= i < n - 1
    ensures 3 * i + i / 8 + 2 < 3 * (n - 1) + (n - 1) / 8
  {
    assert i / 8 <= (n - 1) / 8;
  }

  /** So does the newline closing one of their complete rows. */
  lemma EarlierNewline(n: int, r: int)
    requires 1 <= r <= (n - 1) / 8
    ensures 3 * 8 * r + r - 1 < 3 * (n - 1) + (n - 1) / 8
  {
  }

  /** Tile i's cell is two spaces and the tile's letter, after i/8 newlines. */
  lemma {:induction false} BoardTextCell(b: Board, n: int, i: int)
    requires WellFormed(b) && 0 <= i < n <= NUM_TILES
    ensures |BoardTextUpTo(b, n)| == 3 * n + n / 8
    ensures BoardTextUpTo(b, n)[3 * i + i / 8] == ' ' && BoardTextUpTo(b, n)[3 * i + i / 8 + 1] == ' ' &&
      BoardTextUpTo(b, n)[3 * i + i / 8 + 2] == TileToString(GetTile(b, i))[0]
    decreases n
  {
    BoardTextLength(b, n);
    BoardTextLength(b, n - 1);
    var prev := BoardTextUpTo(b, n - 1);
    var cell := Pad3(TileToString(b.gameBoard[n - 1]));
    var text := BoardTextUpTo(b, n);
    assert text == prev + cell + (if n % 8 == 0 then "\n" else "");
    var k := 3 * i + i / 8;
    if i < n - 1 {
      BoardTextCell(b, n - 1, i);
      EarlierCell(n, i);
      assert k + 2 < |prev|;
      assert text[k] == prev[k] && text[k + 1] == prev[k + 1] && text[k + 2] == prev[k + 2];
    } else {
      assert k == |prev|;
      assert text[k] == cell[0] && text[k + 1] == cell[1] && text[k + 2] == cell[2];
    }
  }

  /** Row r (counting from 1) of eight cells ends in a newline. */
  lemma {:induction false} BoardTextNewline(b: Board, n: int, r: int)
    requires WellFormed(b) && 0 <= n <= NUM_TILES && 1 <= r <= n / 8
    ensures |BoardTextUpTo(b, n)| == 3 * n + n / 8
    ensures BoardTextUpTo(b, n)[3 * 8 * r + r - 1] == '\n'
    decreases n
  {
    BoardTextLength(b, n);
    BoardTextLength(b, n - 1);
    var prev := BoardTextUpTo(b, n - 1);
    var cell := Pad3(TileToString(b.gameBoard[n - 1]));
    var text := BoardTextUpTo(b, n);
    assert text == prev + cell + (if n % 8 == 0 then "\n" else "");
    if r <= (n - 1) / 8 {
      BoardTextNewline(b, n - 1, r);
      EarlierNewline(n, r);
      assert text[3 * 8 * r + r - 1] == prev[3 * 8 * r + r - 1];
    } else {
      assert n == 8 * r;
      assert (n - 1) / 8 == r - 1 by {
        assert n - 1 == 8 * (r - 1) + 7;
      }
      assert 3 * 8 * r + r - 1 == |prev| + 3;
      assert text[|prev| + 3] == '\n';
    }
  }

  /** Layout of the text: tile i's letter sits in column 2 of its three-character
      cell, after i/8 newlines, and each row of eight ends in a newline. */
  lemma BoardTextLayout(b: Board)
    requires WellFormed(b)
    ensures |BoardTextUpTo(b, NUM_TILES)| == 3 * NUM_TILES + NUM_TILES / 8
    ensures forall i :: 0 <= i < NUM_TILES ==>
      BoardTextUpTo(b, NUM_TILES)[3 * i + i / 8] == ' ' && BoardTextUpTo(b, NUM_TILES)[3 * i + i / 8 + 1] == ' ' &&
      BoardTextUpTo(b, NUM_TILES)[3 * i + i / 8 + 2] == TileToString(GetTile(b, i))[0]
    ensures forall r :: 1 <= r <= 8 ==> BoardTextUpTo(b, NUM_TILES)[3 * 8 * r + r - 1] == '\n'
  {
    BoardTextLength(b, NUM_TILES);
    forall i | 0 <= i < NUM_TILES
      ensures BoardTextUpTo(b, NUM_TILES)[3 * i + i / 8] == ' ' && BoardTextUpTo(b, NUM_TILES)[3 * i + i / 8 + 1] == ' ' &&
        BoardTextUpTo(b, NUM_TILES)[3 * i + i / 8 + 2] == TileToString(GetTile(b, i))[0]
    {
      BoardTextCell(b, NUM_TILES, i);
    }
    forall r | 1 <= r <= 8
      ensures BoardTextUpTo(b, NUM_TILES)[3 * 8 * r + r - 1] == '\n'
    {
      BoardTextNewline(b, NUM_TILES, r);
    }
  }
}
