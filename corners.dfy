/** The corner extractor: runs the chessboard detector over a list of images
    and keeps the corner sets of the images in which the board was found. */
module Corners {
  import Vectors
  import opened Board

  /** `cv::Point2f`, with exact `real` coordinates. */
  datatype Point2 = Point2(x: real, y: real)

  /** What `findChessboardCorners` reports for one image: whether the pattern
      was found, and the contents of the point buffer it filled. */
  datatype Detection = Detection(found: bool, points: seq<Point2>)

  /** The pattern size `getChessboardCorners` passes to the detector. */
  const PatternSize: Size := Size(9, 6)

  /** The corner sets appended for `images`, in image order; an image whose
      detection fails contributes nothing. */
  function FoundCorners<Image>(images: seq<Image>, detect: (Image, Size) -> Detection): seq<seq<Point2>>
  {
    if images == [] then []
    else
      var d := detect(images[|images| - 1], PatternSize);
      FoundCorners(images[..|images| - 1], detect) + (if d.found then [d.points] else [])
  }

  /** The positions, in increasing order, of the images in which the pattern
      was found. */
  function FoundIndices<Image>(images: seq<Image>, detect: (Image, Size) -> Detection): seq<nat>
  {
    if images == [] then []
    else
      var k := |images| - 1;
      FoundIndices(images[..k], detect) + (if detect(images[k], PatternSize).found then [k] else [])
  }

  /** Running the extractor over two lists in turn appends what it appends
      for their concatenation. */
  lemma {:induction false} FoundCornersAppend<Image>(a: seq<Image>, b: seq<Image>, detect: (Image, Size) -> Detection)
    ensures FoundCorners(a + b, detect) == FoundCorners(a, detect) + FoundCorners(b, detect)
  {
    if b == [] {
      assert a + b == a;
    } else {
      var k := |b| - 1;
      assert (a + b)[..|a + b| - 1] == a + b[..k];
      assert (a + b)[|a + b| - 1] == b[k];
      FoundCornersAppend(a, b[..k], detect);
    }
  }

  lemma {:induction false} FoundIndicesLength<Image>(images: seq<Image>, detect: (Image, Size) -> Detection)
    ensures |FoundCorners(images, detect)| == |FoundIndices(images, detect)| <= |images|
  {
    if images != [] {
      FoundIndicesLength(images[..|images| - 1], detect);
    }
  }

  /** Entry `m` of the output is the point buffer of image `FoundIndices[m]`,
      an image in which the pattern was found. */
  lemma {:induction false} FoundIndicesAt<Image>(images: seq<Image>, detect: (Image, Size) -> Detection, m: nat)
    requires m < |FoundIndices(images, detect)|
    ensures |FoundIndices(images, detect)| == |FoundCorners(images, detect)|
    ensures FoundIndices(images, detect)[m] < |images|
    ensures detect(images[FoundIndices(images, detect)[m]], PatternSize).found
    ensures FoundCorners(images, detect)[m] == detect(images[FoundIndices(images, detect)[m]], PatternSize).points
  {
    FoundIndicesLength(images, detect);
    var k := |images| - 1;
    var init := images[..k];
    FoundIndicesLength(init, detect);
    if m < |FoundIndices(init, detect)| {
      FoundIndicesAt(init, detect, m);
      assert images[FoundIndices(init, detect)[m]] == init[FoundIndices(init, detect)[m]];
    }
  }

  lemma {:induction false} FoundIndicesIncreasing<Image>(images: seq<Image>, detect: (Image, Size) -> Detection)
    ensures forall m, n :: 0 <= m < n < |FoundIndices(images, detect)| ==>
              FoundIndices(images, detect)[m] < FoundIndices(images, detect)[n]
  {
    if images != [] {
      var k := |images| - 1;
      var init := images[..k];
      FoundIndicesIncreasing(init, detect);
      forall m | 0 <= m < |FoundIndices(init, detect)| ensures FoundIndices(init, detect)[m] < k {
        FoundIndicesAt(init, detect, m);
      }
    }
  }

  lemma {:induction false} FoundIndicesComplete<Image>(images: seq<Image>, detect: (Image, Size) -> Detection, k: nat)
    requires k < |images| && detect(images[k], PatternSize).found
    ensures k in FoundIndices(images, detect)
  {
    var last := |images| - 1;
    if k < last {
      var init := images[..last];
      assert init[k] == images[k];
      FoundIndicesComplete(init, detect, k);
    }
  }

  /** The extractor is an order-preserving filter: entry `m` of its output is
      exactly the detector's point buffer for the `m`-th image, counted in
      order, in which the pattern was found; every such image has its entry,
      and no other image has one. */
  lemma {:induction false} FoundCornersFilter<Image>(images: seq<Image>, detect: (Image, Size) -> Detection)
    ensures |FoundCorners(images, detect)| == |FoundIndices(images, detect)| <= |images|
    ensures forall m :: 0 <= m < |FoundIndices(images, detect)| ==>
              && FoundIndices(images, detect)[m] < |images|
              && detect(images[FoundIndices(images, detect)[m]], PatternSize).found
              && FoundCorners(images, detect)[m] == detect(images[FoundIndices(images, detect)[m]], PatternSize).points
    ensures forall m, n :: 0 <= m < n < |FoundIndices(images, detect)| ==>
              FoundIndices(images, detect)[m] < FoundIndices(images, detect)[n]
    ensures forall k :: 0 <= k < |images| && detect(images[k], PatternSize).found ==>
              k in FoundIndices(images, detect)
  {
    FoundIndicesLength(images, detect);
    FoundIndicesIncreasing(images, detect);
    forall m | 0 <= m < |FoundIndices(images, detect)|
      ensures && FoundIndices(images, detect)[m] < |images|
              && detect(images[FoundIndices(images, detect)[m]], PatternSize).found
              && FoundCorners(images, detect)[m] == detect(images[FoundIndices(images, detect)[m]], PatternSize).points
    {
      FoundIndicesAt(images, detect, m);
    }
    forall k | 0 <= k < |images| && detect(images[k], PatternSize).found
      ensures k in FoundIndices(images, detect)
    {
      FoundIndicesComplete(images, detect, k);
    }
  }

  /** At most one corner set per image is appended. */
  lemma {:induction false} FoundCornersBound<Image>(images: seq<Image>, detect: (Image, Size) -> Detection)
    ensures |FoundCorners(images, detect)| <= |images|
  {
    FoundCornersFilter(images, detect);
  }

  /** When the pattern is found in every image, every image contributes its
      own corner set, at its own position. */
  lemma {:induction false} FoundCornersAllFound<Image>(images: seq<Image>, detect: (Image, Size) -> Detection)
    requires forall k :: 0 <= k < |images| ==> detect(images[k], PatternSize).found
    ensures |FoundCorners(images, detect)| == |images|
    ensures forall k :: 0 <= k < |images| ==>
              FoundCorners(images, detect)[k] == detect(images[k], PatternSize).points
  {
    if images != [] {
      var init := images[..|images| - 1];
      assert forall k :: 0 <= k < |init| ==> init[k] == images[k];
      FoundCornersAllFound(init, detect);
    }
  }

  /** When the pattern is found in no image, nothing is appended. */
  lemma {:induction false} FoundCornersNoneFound<Image>(images: seq<Image>, detect: (Image, Size) -> Detection)
    requires forall k :: 0 <= k < |images| ==> !detect(images[k], PatternSize).found
    ensures FoundCorners(images, detect) == []
  {
    if images != [] {
      var init := images[..|images| - 1];
      assert forall k :: 0 <= k < |init| ==> init[k] == images[k];
      FoundCornersNoneFound(init, detect);
    }
  }

  /** If the detector fills its buffer with `n` points whenever it reports
      success on these images, every appended corner set has `n` points. The
      extractor itself does not check the length. */
  lemma {:induction false} FoundCornersUniform<Image>(images: seq<Image>, detect: (Image, Size) -> Detection, n: nat)
    requires forall k :: 0 <= k < |images| && detect(images[k], PatternSize).found ==>
               |detect(images[k], PatternSize).points| == n
    ensures forall m :: 0 <= m < |FoundCorners(images, detect)| ==> |FoundCorners(images, detect)[m]| == n
  {
    FoundCornersFilter(images, detect);
  }

  /** `getChessboardCorners`: for each image in order, runs the detector into
      a fresh point buffer and appends that buffer when the pattern was found;
      what `allFoundCorners` held before is kept. `showResults` only selects
      the interactive display, which has no effect on the data. */
  method GetChessboardCorners<Image>(images: seq<Image>, allFoundCorners: Vectors.Vector<seq<Point2>>,
                                     showResults: bool, detect: (Image, Size) -> Detection)
    modifies allFoundCorners
    ensures allFoundCorners.elems == old(allFoundCorners.elems) + FoundCorners(images, detect)
  {
    ghost var before := allFoundCorners.elems;
    var i := 0;
    while i < |images|
      invariant 0 <= i <= |images|
      invariant allFoundCorners.elems == before + FoundCorners(images[..i], detect)
    {
      var pointBuf: seq<Point2> := [];
      var d := detect(images[i], PatternSize);
      var found := d.found;
      pointBuf := d.points;
      if found {
        allFoundCorners.PushBack(pointBuf);
      }
      assert images[..i + 1][..i] == images[..i];
      i := i + 1;
    }
    assert images[..i] == images;
  }
}
