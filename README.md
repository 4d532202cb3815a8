# Calibration-board helpers of the OpenCV chessboard demo

This project models the two data-handling routines of a webcam chessboard
calibration demo. Everything else in the program is camera, window and
keyboard plumbing.

- **Board model** (`createKnownBoardPosition`). It appends the reference
  coordinates of a planar calibration grid to a caller-owned vector. The
  outer loop runs over the rows (`height`) and the inner loop over the
  columns (`width`). Each point is `(col * s, row * s, 0)`, where `s` is the
  square edge length.
- **Corner extractor** (`getChessboardCorners`). It runs the chessboard
  detector on each image in turn. Whenever the detector reports success, it
  appends that image's point buffer to a caller-owned vector of corner sets.

Files:

- `vector.dfy`, module `Vectors`: the caller-owned `std::vector`. It is a
  class whose `elems` sequence the one operation used here, `PushBack`,
  extends in place.
- `board.dfy`, module `Board`: the datatypes `Size` and `Point3`, the program's
  board constants, and the specification functions. `RowPoints` is the first
  points of one row. `BoardPoints` is the first complete rows.
  `KnownBoardPosition` is what one call appends; a non-positive loop bound
  runs zero times. Also in this module: the lemmas about these functions, and
  the method `CreateKnownBoardPosition` with its nested loops.
- `corners.dfy`, module `Corners`: `Point2`, `Detection`, and the
  specification functions. `FoundCorners` is the appended corner sets.
  `FoundIndices` is the positions of the images where detection succeeded.
  Also in this module: the filter lemmas and the method `GetChessboardCorners`.

Coordinates are exact `real`s. The detector is a function parameter
`detect: (Image, Size) -> Detection` over an arbitrary image type. It stands
for `findChessboardCorners`, which the routine always calls with pattern size
`Size(9, 6)` (`Corners.PatternSize`). The program's main loop detects with
`chessboardDimensions`, which is `Size(6, 9)` (`Board.ChessboardDimensions`).
Whether the two orientations give the same corners depends on the detector,
which is not part of this model.

The loops of `createKnownBoardPosition` accept any `int`. A non-positive
width or height runs zero iterations, so nothing is appended
(`Board.KnownBoardPositionEmpty`). `getChessboardCorners` never checks the
length of a corner set. It keeps whatever buffer the detector filled
(`Corners.FoundCornersUniform`).

## Model

| member | source | states |
|---|---|---|
| `Board.CreateKnownBoardPosition` | OPENCV3_Template/OPENCV3_Template/main.cpp:15-21 | After the nested row/column loops, `corners` is its old contents followed by exactly `KnownBoardPosition(boardSize, squareEdgeLength)`. Earlier entries stay at their positions; the routine only appends. |
| `Board.RowPointsLength` | OPENCV3_Template/OPENCV3_Template/main.cpp:17-18 | The inner loop run over `cols` columns contributes exactly `cols` points. |
| `Board.RowPointsAt` | OPENCV3_Template/OPENCV3_Template/main.cpp:17-18 | Within one row, the point at column `col` is `(col * s, row * s, 0)`, in increasing column order. |
| `Board.BoardPointsLength` | OPENCV3_Template/OPENCV3_Template/main.cpp:16-19 | `rows` complete rows of `cols` points each give exactly `rows * cols` points. |
| `Board.BoardPointsAt` | OPENCV3_Template/OPENCV3_Template/main.cpp:16-18 | Row-major layout: the point at offset `row * cols + col` is `(col * s, row * s, 0)`. Every such offset is in range. |
| `Board.BoardPointsPlanar` | OPENCV3_Template/OPENCV3_Template/main.cpp:18 | Every point of every generated row has z = 0. |
| `Board.RowPointsPlanar` | OPENCV3_Template/OPENCV3_Template/main.cpp:18 | Every point of a row has z = 0. |
| `Board.KnownBoardPositionLength` | OPENCV3_Template/OPENCV3_Template/main.cpp:15-20 | One call appends `max(width, 0) * max(height, 0)` points. If both dimensions are positive, that is exactly `width * height`. |
| `Board.KnownBoardPositionEmpty` | OPENCV3_Template/OPENCV3_Template/main.cpp:16-17 | Nothing is appended if and only if `width <= 0` or `height <= 0`. |
| `Board.KnownBoardPositionAt` | OPENCV3_Template/OPENCV3_Template/main.cpp:16-18 | For `0 <= row < height` and `0 <= col < width`, the appended point at offset `row * width + col` is `(col * s, row * s, 0)`. |
| `Board.KnownBoardPositionPlanar` | OPENCV3_Template/OPENCV3_Template/main.cpp:18 | Every appended point has z = 0, so all points lie in one plane. |
| `Board.KnownBoardPositionSpacing` | OPENCV3_Template/OPENCV3_Template/main.cpp:18 | Horizontally adjacent points share y and are exactly one square edge apart in x. |
| `Board.KnownBoardPositionVerticalSpacing` | OPENCV3_Template/OPENCV3_Template/main.cpp:16-18 | Vertically adjacent points share x and are exactly one square edge apart in y. |
| `Board.DefaultBoard` | OPENCV3_Template/OPENCV3_Template/main.cpp:11-18 | The program's 6 × 9 board with 0.024 m squares yields 54 points. The first is (0, 0, 0), the second (0.024, 0, 0) and the last (0.12, 0.192, 0). |
| `Corners.GetChessboardCorners` | OPENCV3_Template/OPENCV3_Template/main.cpp:23-37 | After the loop over the images, `allFoundCorners` is its old contents followed by exactly `FoundCorners(images, detect)`. Old entries are preserved. `showResults` does not affect `allFoundCorners`. |
| `Corners.FoundCornersAppend` | OPENCV3_Template/OPENCV3_Template/main.cpp:24-30 | Processing `a + b` appends what processing `a` appends, then what processing `b` appends. No state carries over from one image to the next. |
| `Corners.FoundIndicesLength` | OPENCV3_Template/OPENCV3_Template/main.cpp:24-30 | One corner set is appended per successful image, so there are at most `|images|`. |
| `Corners.FoundIndicesAt` | OPENCV3_Template/OPENCV3_Template/main.cpp:25-29 | Appended entry `m` is exactly the point buffer the detector filled for image `FoundIndices[m]`, and detection succeeded on that image. |
| `Corners.FoundIndicesIncreasing` | OPENCV3_Template/OPENCV3_Template/main.cpp:24 | The images behind the appended entries appear in strictly increasing position: input order is kept. |
| `Corners.FoundIndicesComplete` | OPENCV3_Template/OPENCV3_Template/main.cpp:26-29 | Every image on which detection succeeds has an appended entry. |
| `Corners.FoundCornersFilter` | OPENCV3_Template/OPENCV3_Template/main.cpp:24-30 | The output is the order-preserving filter of the images by detection success, mapped to their point buffers. The four properties above hold together, in both directions: an entry exists if and only if detection succeeded. |
| `Corners.FoundCornersBound` | OPENCV3_Template/OPENCV3_Template/main.cpp:23-30 | At most `|images|` corner sets are appended. |
| `Corners.FoundCornersAllFound` | OPENCV3_Template/OPENCV3_Template/main.cpp:26-29 | If detection succeeds on every image, there is one entry per image, and entry `k` is the buffer for image `k`. |
| `Corners.FoundCornersNoneFound` | OPENCV3_Template/OPENCV3_Template/main.cpp:26-30 | If detection fails on every image, nothing is appended. |
| `Corners.FoundCornersUniform` | OPENCV3_Template/OPENCV3_Template/main.cpp:25-29 | If the detector fills `n` points on every success, every appended corner set has `n` points. The routine adds no such check of its own. |
| `Vectors.Vector.PushBack` | OPENCV3_Template/OPENCV3_Template/main.cpp:29 | `push_back` appends one element at the end and changes nothing else. |

## Left out

- The `main` function (OPENCV3_Template/OPENCV3_Template/main.cpp:39-81) is webcam capture, window display and frame pacing. It is I/O, and its key read is never used. Its unused locals (`cameraMatrix`, `distanceCoefficients`, `savedImage`, `markerCorners`) and the unused constant `arucoSquareDimension` are not modelled.
- The chessboard detector `findChessboardCorners` is a library algorithm. It is the function parameter `detect`, and its detection flags are not modelled.
- The `showResults` branch (OPENCV3_Template/OPENCV3_Template/main.cpp:31-35) draws on and shows each image, then blocks on a key press. It is display only. Drawing writes into pixel data the copied `cv::Mat` headers share with the caller. So if one image object appeared twice in the list, an earlier drawing could change a later detection. This aliasing is not modelled: the model treats images as values.
- `float` arithmetic: coordinates are exact `real` products `col * s`, so the rounding of `j*squareEdgeLength` in single precision is not modelled.
- This file has no calibration solve, no file writer and no keyboard dispatch; the key read at OPENCV3_Template/OPENCV3_Template/main.cpp:77 is unused.
- `Corners.GetChessboardCorners`: detector errors (`findChessboardCorners` raising `cv::Exception` on an unsupported image), display errors in the `showResults` branch and allocation failure of `push_back` are not modelled. The detector is a total function. On such an early exit the vector would hold its old contents followed by only a prefix of `FoundCorners(images, detect)`, a case the ensures does not cover.
- `Board.CreateKnownBoardPosition`: allocation failure of `push_back` is not modelled. On such an early exit `corners` would hold its old contents followed by only a prefix of `KnownBoardPosition(boardSize, squareEdgeLength)`, a case the ensures does not cover.
