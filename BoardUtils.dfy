/** Board geometry: squares are numbered 0..63 row by row, a8 = 0 and h1 = 63.
    The Java class fills boolean tables for files and ranks in do-while loops and
    a string-to-square map in a for loop; here each loop is a method proved
    against the predicate or map it builds, and the rest of the model uses those. */
module BoardUtils {
  import opened Wrappers

  const NUM_TILES: int := 64
  const START_TILE_INDEX: int := 0

  predicate IsValidTileCoord(coord: int)
  {
    coord >= 0 && coord < NUM_TILES
  }

  /** File (0 = a .. 7 = h) and rank row (0 = rank 8 .. 7 = rank 1) of a square. */
  function FileOf(sq: int): int
    requires IsValidTileCoord(sq)
  {
    sq % 8
  }

  function RowOf(sq: int): int
    requires IsValidTileCoord(sq)
  {
    sq / 8
  }

  function Abs(x: int): nat
  {
    if x < 0 then -x else x
  }

  /** How many files and how many rows apart two squares are. */
  function FileDistance(from: int, to: int): nat
    requires IsValidTileCoord(from) && IsValidTileCoord(to)
  {
    Abs(FileOf(to) - FileOf(from))
  }

  function RowDistance(from: int, to: int): nat
    requires IsValidTileCoord(from) && IsValidTileCoord(to)
  {
    Abs(RowOf(to) - RowOf(from))
  }

  /** Adding 8 * dr + df to a square moves it dr rows and df files, unless the
      file leaves 0..7, in which case the step wraps onto the neighbouring row. */
  lemma OffsetGeometry(pos: int, dr: int, df: int)
    requires IsValidTileCoord(pos) && IsValidTileCoord(pos + 8 * dr + df) && -8 < df < 8
    ensures 0 <= FileOf(pos) + df < 8 ==>
      FileOf(pos + 8 * dr + df) == FileOf(pos) + df && RowOf(pos + 8 * dr + df) == RowOf(pos) + dr
    ensures FileOf(pos) + df < 0 ==>
      FileOf(pos + 8 * dr + df) == FileOf(pos) + df + 8 && RowOf(pos + 8 * dr + df) == RowOf(pos) + dr - 1
    ensures FileOf(pos) + df >= 8 ==>
      FileOf(pos + 8 * dr + df) == FileOf(pos) + df - 8 && RowOf(pos + 8 * dr + df) == RowOf(pos) + dr + 1
  {
    var f := pos % 8;
    var r := pos / 8;
    var dest := pos + 8 * dr + df;
    assert pos == 8 * r + f;
    if 0 <= f + df < 8 {
      assert dest == 8 * (r + dr) + (f + df);
    } else if f + df < 0 {
      assert dest == 8 * (r + dr - 1) + (f + df + 8);
    } else {
      assert dest == 8 * (r + dr + 1) + (f + df - 8);
    }
  }

  /** Square i is marked by inColumn(c): it is reached from c by steps of 8. */
  predicate ColumnMark(columnNumber: int, i: int)
  {
    columnNumber <= i < NUM_TILES && (i - columnNumber) % 8 == 0
  }

  /** Square i is marked by inRow(r): it lies between r and the next multiple of 8. */
  predicate RowMark(rowNumber: int, i: int)
  {
    rowNumber <= i < rowNumber - rowNumber % 8 + 8
  }

  method InColumn(columnNumber: int) returns (column: array<bool>)
    requires 0 <= columnNumber < NUM_TILES
    ensures column.Length == NUM_TILES
    ensures forall i :: 0 <= i < NUM_TILES ==> column[i] == ColumnMark(columnNumber, i)
  {
    column := new bool[NUM_TILES](_ => false);
    var c := columnNumber;
    column[c] := true;
    c := c + 8;
    while c < NUM_TILES
      invariant columnNumber < c <= NUM_TILES + 7 && (c - columnNumber) % 8 == 0
      invariant forall i :: 0 <= i < NUM_TILES ==>
        column[i] == (columnNumber <= i < c && (i - columnNumber) % 8 == 0)
    {
      column[c] := true;
      c := c + 8;
    }
  }

  method InRow(rowNumber: int) returns (row: array<bool>)
    requires 0 <= rowNumber < NUM_TILES
    ensures row.Length == NUM_TILES
    ensures forall i :: 0 <= i < NUM_TILES ==> row[i] == RowMark(rowNumber, i)
  {
    row := new bool[NUM_TILES](_ => false);
    var r := rowNumber;
    row[r] := true;
    r := r + 1;
    while r % 8 != 0
      decreases rowNumber - rowNumber % 8 + 8 - r
      invariant rowNumber < r <= rowNumber - rowNumber % 8 + 8
      invariant forall i :: 0 <= i < NUM_TILES ==> row[i] == (rowNumber <= i < r)
    {
      row[r] := true;
      r := r + 1;
    }
  }

  // The eight tables the engine uses.
  predicate FirstColumn(sq: int)   { ColumnMark(0, sq) }
  predicate SecondColumn(sq: int)  { ColumnMark(1, sq) }
  predicate SeventhColumn(sq: int) { ColumnMark(6, sq) }
  predicate EighthColumn(sq: int)  { ColumnMark(7, sq) }
  predicate EighthRank(sq: int)    { RowMark(0, sq) }
  predicate SeventhRank(sq: int)   { RowMark(8, sq) }
  predicate SecondRank(sq: int)    { RowMark(48, sq) }
  predicate FirstRank(sq: int)     { RowMark(56, sq) }

  lemma ColumnMarkIsFile(c: int, i: int)
    requires 0 <= c < 8 && IsValidTileCoord(i)
    ensures ColumnMark(c, i) <==> FileOf(i) == c
  {
  }

  lemma RowMarkIsRow(r: int, i: int)
    requires 0 <= r < NUM_TILES && r % 8 == 0 && IsValidTileCoord(i)
    ensures RowMark(r, i) <==> r <= i <= r + 7
    ensures RowMark(r, i) <==> RowOf(i) == r / 8
  {
  }

  /** The notation table, one source line (one rank) per row. */
  const ALGEBRAIC_NOTATION: seq<string> :=
    ["a8", "b8", "c8", "d8", "e8", "f8", "g8", "h8"] +
    ["a7", "b7", "c7", "d7", "e7", "f7", "g7", "h7"] +
    ["a6", "b6", "c6", "d6", "e6", "f6", "g6", "h6"] +
    ["a5", "b5", "c5", "d5", "e5", "f5", "g5", "h5"] +
    ["a4", "b4", "c4", "d4", "e4", "f4", "g4", "h4"] +
    ["a3", "b3", "c3", "d3", "e3", "f3", "g3", "h3"] +
    ["a2", "b2", "c2", "d2", "e2", "f2", "g2", "h2"] +
    ["a1", "b1", "c1", "d1", "e1", "f1", "g1", "h1"]

  /** The name of a square computed from its file and row. */
  function SquareName(sq: int): string
    requires IsValidTileCoord(sq)
  {
    [(('a' as int) + FileOf(sq)) as char, (('8' as int) - RowOf(sq)) as char]
  }

  /** Ranks 8 to 5 of the table. */
  lemma NotationUpperHalf(i: int)
    requires 0 <= i < 32
    ensures |ALGEBRAIC_NOTATION| == NUM_TILES
    ensures ALGEBRAIC_NOTATION[i] == SquareName(i)
  {
    var row := RowOf(i);
    if row == 0 {} else if row == 1 {} else if row == 2 {} else {}
  }

  /** Ranks 4 to 1 of the table. */
  lemma NotationLowerHalf(i: int)
    requires 32 <= i < 64
    ensures |ALGEBRAIC_NOTATION| == NUM_TILES
    ensures ALGEBRAIC_NOTATION[i] == SquareName(i)
  {
    var row := RowOf(i);
    if row == 4 {} else if row == 5 {} else if row == 6 {} else {}
  }

  lemma NotationIsFileThenRank(i: int)
    requires IsValidTileCoord(i)
    ensures |ALGEBRAIC_NOTATION| == NUM_TILES
    ensures ALGEBRAIC_NOTATION[i] == SquareName(i)
  {
    if i < 32 {
      NotationUpperHalf(i);
    } else {
      NotationLowerHalf(i);
    }
  }

  /** Distinct squares have distinct names, so the reverse map loses nothing. */
  lemma NotationInjective(i: int, j: int)
    requires IsValidTileCoord(i) && IsValidTileCoord(j)
    ensures ALGEBRAIC_NOTATION[i] == ALGEBRAIC_NOTATION[j] <==> i == j
  {
    NotationIsFileThenRank(i);
    NotationIsFileThenRank(j);
    if ALGEBRAIC_NOTATION[i] == ALGEBRAIC_NOTATION[j] {
      assert SquareName(i)[0] == SquareName(j)[0] && SquareName(i)[1] == SquareName(j)[1];
      assert FileOf(i) == FileOf(j) && RowOf(i) == RowOf(j);
    }
  }

  /** The map after the first n iterations of the for loop that fills it. */
  function PositionMapUpTo(n: int): map<string, int>
    requires START_TILE_INDEX <= n <= NUM_TILES
  {
    if n == START_TILE_INDEX then map[]
    else PositionMapUpTo(n - 1)[ALGEBRAIC_NOTATION[n - 1] := n - 1]
  }

  function PositionToCoordinate(): map<string, int>
  {
    PositionMapUpTo(NUM_TILES)
  }

  lemma {:induction false} PositionMapUpToContents(n: int)
    requires START_TILE_INDEX <= n <= NUM_TILES
    ensures forall k :: 0 <= k < n ==>
      ALGEBRAIC_NOTATION[k] in PositionMapUpTo(n) && PositionMapUpTo(n)[ALGEBRAIC_NOTATION[k]] == k
    ensures forall s :: s in PositionMapUpTo(n) ==>
      0 <= PositionMapUpTo(n)[s] < n && ALGEBRAIC_NOTATION[PositionMapUpTo(n)[s]] == s
    ensures |PositionMapUpTo(n)| == n
  {
    if n > 0 {
      PositionMapUpToContents(n - 1);
      forall k | 0 <= k < n - 1
        ensures ALGEBRAIC_NOTATION[k] != ALGEBRAIC_NOTATION[n - 1]
      {
        NotationInjective(k, n - 1);
      }
    }
  }

  /** Every square's name is a key of the reverse map. */
  lemma NameIsKey(s: string)
    requires s in ALGEBRAIC_NOTATION
    ensures s in PositionToCoordinate()
  {
    PositionMapUpToContents(NUM_TILES);
    var k :| 0 <= k < |ALGEBRAIC_NOTATION| && ALGEBRAIC_NOTATION[k] == s;
  }

  /** Every key of the reverse map is a square's name. */
  lemma KeyIsName(s: string)
    requires s in PositionToCoordinate()
    ensures s in ALGEBRAIC_NOTATION
  {
    PositionMapUpToContents(NUM_TILES);
    assert ALGEBRAIC_NOTATION[PositionToCoordinate()[s]] == s;
  }

  /** The reverse map has one key per square: exactly the 64 names. */
  lemma PositionToCoordinateKeys()
    ensures forall s :: s in PositionToCoordinate() <==> s in ALGEBRAIC_NOTATION
    ensures |PositionToCoordinate()| == NUM_TILES
  {
    PositionMapUpToContents(NUM_TILES);
    forall s
      ensures s in PositionToCoordinate() <==> s in ALGEBRAIC_NOTATION
    {
      if s in ALGEBRAIC_NOTATION {
        NameIsKey(s);
      }
      if s in PositionToCoordinate() {
        KeyIsName(s);
      }
    }
  }

  /** initializePositionToCoordinateMap: one put per square, in square order. */
  method InitializePositionToCoordinateMap() returns (positionToCoordinate: map<string, int>)
    ensures positionToCoordinate == PositionToCoordinate()
  {
    positionToCoordinate := map[];
    var i := START_TILE_INDEX;
    while i < NUM_TILES
      invariant START_TILE_INDEX <= i <= NUM_TILES
      invariant positionToCoordinate == PositionMapUpTo(i)
    {
      positionToCoordinate := positionToCoordinate[ALGEBRAIC_NOTATION[i] := i];
      i := i + 1;
    }
  }

  /** getPositionAtCoordinate: the algebraic name of a square. */
  function GetPositionAtCoordinate(coordinate: int): (position: string)
    requires IsValidTileCoord(coordinate)
    ensures position == SquareName(coordinate)
  {
    NotationIsFileThenRank(coordinate);
    ALGEBRAIC_NOTATION[coordinate]
  }

  /** getCoordinateAtPosition: the square with that name; None where the Java
      lookup finds no entry and unboxing the null result throws. */
  function GetCoordinateAtPosition(position: string): (coordinate: Option<int>)
    ensures coordinate.Some? ==>
      IsValidTileCoord(coordinate.value) && ALGEBRAIC_NOTATION[coordinate.value] == position
    ensures coordinate.None? <==> position !in ALGEBRAIC_NOTATION
  {
    PositionMapUpToContents(NUM_TILES);
    if position in PositionToCoordinate() then Some(PositionToCoordinate()[position]) else None
  }

  lemma {:induction false} CoordinateRoundTrip(i: int)
    requires IsValidTileCoord(i)
    ensures GetCoordinateAtPosition(GetPositionAtCoordinate(i)) == Some(i)
  {
    PositionMapUpToContents(NUM_TILES);
  }

  lemma {:induction false} PositionRoundTrip(position: string)
    requires position in ALGEBRAIC_NOTATION
    ensures GetCoordinateAtPosition(position).Some?
    ensures GetPositionAtCoordinate(GetCoordinateAtPosition(position).value) == position
  {
  }
}
