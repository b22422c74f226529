/** A tile is empty or holds one piece. */
module Tiles {
  import opened Wrappers
  import opened BoardUtils
  import opened Alliances
  import opened Pieces

  datatype Tile = EmptyTile(tileCoord: int) | OccupiedTile(tileCoord: int, pieceOnTile: Piece)
  {
    predicate IsTileOccupied()
    {
      OccupiedTile?
    }

    /** getPiece: None stands for the null an empty tile returns. */
    function GetPiece(): Option<Piece>
    {
      match this
      case EmptyTile(_) => None
      case OccupiedTile(_, p) => Some(p)
    }
  }

  /** The contents of EMPTY_TILES_Cache. */
  function EmptyTilesCache(): map<int, Tile>
  {
    map i | 0 <= i < NUM_TILES :: EmptyTile(i)
  }

  method CreateAllPossibleEmptyTiles() returns (emptyTileMap: map<int, Tile>)
    ensures forall i :: i in emptyTileMap <==> IsValidTileCoord(i)
    ensures forall i :: i in emptyTileMap ==> emptyTileMap[i] == EmptyTile(i)
  {
    emptyTileMap := map[];
    var i := 0;
    while i < NUM_TILES
      invariant 0 <= i <= NUM_TILES
      invariant forall k :: k in emptyTileMap <==> 0 <= k < i
      invariant forall k :: k in emptyTileMap ==> emptyTileMap[k] == EmptyTile(k)
    {
      emptyTileMap := emptyTileMap[i := EmptyTile(i)];
      i := i + 1;
    }
  }

  /** createTile: an occupied tile for a piece; for no piece, the cached empty
      tile, and None (Java's null) for a coordinate the cache does not hold. */
  function CreateTile(tileCoord: int, piece: Option<Piece>): (t: Option<Tile>)
    ensures piece.Some? ==> t == Some(OccupiedTile(tileCoord, piece.value))
    ensures piece.None? && IsValidTileCoord(tileCoord) ==> t == Some(EmptyTile(tileCoord))
    ensures piece.None? && !IsValidTileCoord(tileCoord) ==> t == None
    ensures t.Some? ==> t.value.tileCoord == tileCoord && t.value.GetPiece() == piece
  {
    if piece.Some? then Some(OccupiedTile(tileCoord, piece.value))
    else if tileCoord in EmptyTilesCache() then Some(EmptyTilesCache()[tileCoord])
    else None
  }

  function LowerCase(c: char): char
  {
    if 'A' <= c <= 'Z' then (c as int - 'A' as int + 'a' as int) as char else c
  }

  /** Tile.toString: "-" when empty; the piece letter, lower case for Black. */
  function TileToString(t: Tile): (s: string)
    ensures |s| == 1
    ensures t.EmptyTile? ==> s == "-"
    ensures t.OccupiedTile? && IsWhite(t.pieceOnTile.pieceAlliance) ==> s == PieceToString(t.pieceOnTile)
    ensures t.OccupiedTile? && IsBlack(t.pieceOnTile.pieceAlliance) ==>
      s == [LowerCase(PieceToString(t.pieceOnTile)[0])] && 'a' <= s[0] <= 'z'
  {
    match t
    case EmptyTile(_) => "-"
    case OccupiedTile(_, p) =>
      var name := PieceToString(p);
      if IsBlack(p.pieceAlliance) then [LowerCase(name[0])] else name
  }
}
