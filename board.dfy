/** The board model: the reference coordinates of the interior corners of a
    planar calibration grid, in the plane z = 0. */
module Board {
  import Vectors

  /** `cv::Size`: a column count (width) and a row count (height). Both are
      C++ `int`s, so either may be zero or negative. */
  datatype Size = Size(width: int, height: int)

  /** `cv::Point3f`, with exact `real` coordinates in place of `float`. */
  datatype Point3 = Point3(x: real, y: real, z: real)

  /** The number of iterations of `for (int k = 0; k < n; k++)`. */
  function Trips(n: int): nat
  {
    if n <= 0 then 0 else n
  }

  /** The grid point in column `col` and row `row` for squares of edge `s`. */
  function GridPoint(col: nat, row: nat, s: real): Point3
  {
    Point3(col as real * s, row as real * s, 0.0)
  }

  /** The first `cols` points of row `row`, left to right. */
  function RowPoints(cols: nat, row: nat, s: real): seq<Point3>
  {
    if cols == 0 then [] else RowPoints(cols - 1, row, s) + [GridPoint(cols - 1, row, s)]
  }

  /** The first `rows` complete rows of `cols` points each, top to bottom. */
  function BoardPoints(rows: nat, cols: nat, s: real): seq<Point3>
  {
    if rows == 0 then [] else BoardPoints(rows - 1, cols, s) + RowPoints(cols, rows - 1, s)
  }

  /** Everything `createKnownBoardPosition` appends for `boardSize` and `s`. */
  function KnownBoardPosition(boardSize: Size, s: real): seq<Point3>
  {
    BoardPoints(Trips(boardSize.height), Trips(boardSize.width), s)
  }

  lemma {:induction false} RowPointsAt(cols: nat, row: nat, s: real, col: nat)
    requires col < cols
    ensures |RowPoints(cols, row, s)| == cols
    ensures RowPoints(cols, row, s)[col] == GridPoint(col, row, s)
  {
    RowPointsLength(cols - 1, row, s);
    if col < cols - 1 {
      RowPointsAt(cols - 1, row, s, col);
    }
  }

  lemma {:induction false} RowPointsLength(cols: nat, row: nat, s: real)
    ensures |RowPoints(cols, row, s)| == cols
  {
    if cols > 0 {
      RowPointsLength(cols - 1, row, s);
    }
  }

  /** The board holds exactly `rows * cols` points. */
  lemma {:induction false} BoardPointsLength(rows: nat, cols: nat, s: real)
    ensures |BoardPoints(rows, cols, s)| == rows * cols
  {
    if rows > 0 {
      BoardPointsLength(rows - 1, cols, s);
      RowPointsLength(cols, rows - 1, s);
      assert (rows - 1) * cols + cols == rows * cols;
    }
  }

  /** Row-major layout: the point at offset `row * cols + col` is that of
      column `col` in row `row`. */
  lemma {:induction false} BoardPointsAt(rows: nat, cols: nat, s: real, row: nat, col: nat)
    requires row < rows && col < cols
    ensures row * cols + col < |BoardPoints(rows, cols, s)|
    ensures BoardPoints(rows, cols, s)[row * cols + col] == GridPoint(col, row, s)
  {
    var prefix := BoardPoints(rows - 1, cols, s);
    var n := row * cols + col;
    BoardPointsLength(rows - 1, cols, s);
    RowPointsAt(cols, rows - 1, s, col);
    OffsetSplit(rows, cols, row, col);
    assert BoardPoints(rows, cols, s) == prefix + RowPoints(cols, rows - 1, s);
    if row < rows - 1 {
      BoardPointsAt(rows - 1, cols, s, row, col);
    }
  }

  /** Arithmetic behind the row-major offset: an offset in the last row lies
      past the earlier rows, one in an earlier row lies before them. */
  lemma OffsetSplit(rows: nat, cols: nat, row: nat, col: nat)
    requires row < rows && col < cols
    ensures row * cols + col < rows * cols
    ensures row < rows - 1 ==> row * cols + col < (rows - 1) * cols
    ensures row == rows - 1 ==> row * cols + col == (rows - 1) * cols + col
    ensures (rows - 1) * cols + cols == rows * cols
  {
    assert (row + 1) * cols == row * cols + cols;
    MulMonotone(row + 1, rows, cols);
    if row < rows - 1 {
      MulMonotone(row + 1, rows - 1, cols);
    }
  }

  lemma MulMonotone(a: nat, b: nat, c: nat)
    requires a <= b
    ensures a * c <= b * c
  {
  }

  /** Every generated point lies in the plane z = 0. */
  lemma {:induction false} BoardPointsPlanar(rows: nat, cols: nat, s: real)
    ensures forall k :: 0 <= k < |BoardPoints(rows, cols, s)| ==> BoardPoints(rows, cols, s)[k].z == 0.0
  {
    if rows > 0 {
      BoardPointsPlanar(rows - 1, cols, s);
      RowPointsPlanar(cols, rows - 1, s);
    }
  }

  lemma {:induction false} RowPointsPlanar(cols: nat, row: nat, s: real)
    ensures forall k :: 0 <= k < |RowPoints(cols, row, s)| ==> RowPoints(cols, row, s)[k].z == 0.0
  {
    if cols > 0 {
      RowPointsPlanar(cols - 1, row, s);
    }
  }

  /** The number of points appended is `width * height` when both are
      positive, and zero otherwise. */
  lemma KnownBoardPositionLength(boardSize: Size, s: real)
    ensures |KnownBoardPosition(boardSize, s)| == Trips(boardSize.width) * Trips(boardSize.height)
    ensures boardSize.width > 0 && boardSize.height > 0 ==>
              |KnownBoardPosition(boardSize, s)| == boardSize.width * boardSize.height
  {
    BoardPointsLength(Trips(boardSize.height), Trips(boardSize.width), s);
  }

  /** Nothing is appended exactly when the width or the height is not positive. */
  lemma KnownBoardPositionEmpty(boardSize: Size, s: real)
    ensures KnownBoardPosition(boardSize, s) == [] <==> boardSize.width <= 0 || boardSize.height <= 0
  {
    KnownBoardPositionLength(boardSize, s);
    if boardSize.width > 0 && boardSize.height > 0 {
      MulMonotone(1, boardSize.width, boardSize.height);
    }
  }

  /** The point at offset `row * width + col` is `(col * s, row * s, 0)`. */
  lemma KnownBoardPositionAt(boardSize: Size, s: real, row: int, col: int)
    requires 0 <= row < boardSize.height && 0 <= col < boardSize.width
    ensures row * boardSize.width + col < |KnownBoardPosition(boardSize, s)|
    ensures KnownBoardPosition(boardSize, s)[row * boardSize.width + col]
            == Point3(col as real * s, row as real * s, 0.0)
  {
    BoardPointsAt(boardSize.height, boardSize.width, s, row, col);
  }

  /** All points appended lie in one plane, z = 0. */
  lemma KnownBoardPositionPlanar(boardSize: Size, s: real)
    ensures forall k :: 0 <= k < |KnownBoardPosition(boardSize, s)| ==> KnownBoardPosition(boardSize, s)[k].z == 0.0
  {
    BoardPointsPlanar(Trips(boardSize.height), Trips(boardSize.width), s);
  }

  /** Horizontally adjacent points are one square edge apart in x and share y. */
  lemma KnownBoardPositionSpacing(boardSize: Size, s: real, row: int, col: int)
    requires 0 <= row < boardSize.height && 0 <= col && col + 1 < boardSize.width
    ensures row * boardSize.width + col + 1 < |KnownBoardPosition(boardSize, s)|
    ensures KnownBoardPosition(boardSize, s)[row * boardSize.width + col + 1].x
            == KnownBoardPosition(boardSize, s)[row * boardSize.width + col].x + s
    ensures KnownBoardPosition(boardSize, s)[row * boardSize.width + col + 1].y
            == KnownBoardPosition(boardSize, s)[row * boardSize.width + col].y
  {
    KnownBoardPositionAt(boardSize, s, row, col);
    KnownBoardPositionAt(boardSize, s, row, col + 1);
  }

  /** Vertically adjacent points are one square edge apart in y and share x. */
  lemma KnownBoardPositionVerticalSpacing(boardSize: Size, s: real, row: int, col: int)
    requires 0 <= row && row + 1 < boardSize.height && 0 <= col < boardSize.width
    ensures (row + 1) * boardSize.width + col < |KnownBoardPosition(boardSize, s)|
    ensures KnownBoardPosition(boardSize, s)[(row + 1) * boardSize.width + col].y
            == KnownBoardPosition(boardSize, s)[row * boardSize.width + col].y + s
    ensures KnownBoardPosition(boardSize, s)[(row + 1) * boardSize.width + col].x
            == KnownBoardPosition(boardSize, s)[row * boardSize.width + col].x
  {
    KnownBoardPositionAt(boardSize, s, row, col);
    KnownBoardPositionAt(boardSize, s, row + 1, col);
  }

  /** `calibrationSquareDImension`: the square edge of the printed board, in metres. */
  const CalibrationSquareDimension: real := 0.024

  /** `chessboardDimensions`: 6 columns by 9 rows of interior corners. */
  const ChessboardDimensions: Size := Size(6, 9)

  /** The program's own board yields 54 points, from (0, 0, 0) to
      (0.12, 0.192, 0). The board and edge are parameters fixed by the
      requires clause, so that the verifier reasons about the board through
      the lemmas above instead of expanding it point by point. */
  lemma DefaultBoard(boardSize: Size, s: real)
    requires boardSize == ChessboardDimensions && s == CalibrationSquareDimension
    ensures |KnownBoardPosition(boardSize, s)| == 54
    ensures KnownBoardPosition(boardSize, s)[0] == Point3(0.0, 0.0, 0.0)
    ensures KnownBoardPosition(boardSize, s)[1] == Point3(0.024, 0.0, 0.0)
    ensures KnownBoardPosition(boardSize, s)[53] == Point3(0.12, 0.192, 0.0)
  {
    KnownBoardPositionLength(boardSize, s);
    KnownBoardPositionAt(boardSize, s, 0, 0);
    KnownBoardPositionAt(boardSize, s, 0, 1);
    KnownBoardPositionAt(boardSize, s, 8, 5);
  }

  /** `createKnownBoardPosition`: appends the grid row by row (outer loop over
      the height, inner loop over the width) and keeps what `corners` held. */
  method CreateKnownBoardPosition(boardSize: Size, squareEdgeLength: real, corners: Vectors.Vector<Point3>)
    modifies corners
    ensures corners.elems == old(corners.elems) + KnownBoardPosition(boardSize, squareEdgeLength)
  {
    ghost var before := corners.elems;
    var cols := Trips(boardSize.width);
    var i := 0;
    while i < boardSize.height
      invariant 0 <= i <= Trips(boardSize.height)
      invariant corners.elems == before + BoardPoints(i, cols, squareEdgeLength)
    {
      var j := 0;
      while j < boardSize.width
        invariant 0 <= j <= cols
        invariant corners.elems == before + BoardPoints(i, cols, squareEdgeLength) + RowPoints(j, i, squareEdgeLength)
      {
        corners.PushBack(Point3(j as real * squareEdgeLength, i as real * squareEdgeLength, 0.0));
        assert RowPoints(j + 1, i, squareEdgeLength)
            == RowPoints(j, i, squareEdgeLength) + [GridPoint(j, i, squareEdgeLength)];
        j := j + 1;
      }
      i := i + 1;
    }
  }
}
