/**
 * Tailcuts image cleaning and mask dilation (src/ImageCleaner.cpp).
 * An image is one charge per pixel, a mask one flag per pixel; both are
 * indexed like the camera's adjacency relation.
 */
module ImageCleaner {
  import opened Camera

  /** The four parameters a configured cleaner carries. */
  datatype TailcutsCleaner = TailcutsCleaner(
    pictureThresh: real,
    boundaryThresh: real,
    keepIsolatedPixels: bool,
    minNumberPictureNeighbors: int)

  /** The registered defaults: picture 10, boundary 5, isolated pixels dropped, two neighbours. */
  const DefaultCleaner := TailcutsCleaner(10.0, 5.0, false, 2)

  /** Elementwise `image >= thresh`. */
  function Threshold(image: seq<real>, thresh: real): (above: seq<bool>)
    ensures |above| == |image|
    ensures forall i :: 0 <= i < |image| ==> above[i] == (image[i] >= thresh)
  {
    seq(|image|, i requires 0 <= i < |image| => image[i] >= thresh)
  }

  // ---------------------------------------------------------------------
  // Reference definition: which pixels tailcuts cleaning keeps, stated on
  // the charges directly rather than through intermediate masks.
  // ---------------------------------------------------------------------

  /** How many neighbours of pixel i carry at least `thresh`. */
  function NeighboursAtLeast(adj: Adjacency, image: seq<real>, thresh: real, i: nat): nat
    requires i < |adj|
  {
    |set j | j in adj[i] && j < |image| && image[j] >= thresh|
  }

  /** A pixel is in the picture when it reaches the picture threshold and, unless
      isolated pixels are kept or no neighbours are demanded, has enough such neighbours. */
  ghost predicate InPicture(adj: Adjacency, image: seq<real>, picture: real,
                            keepIsolated: bool, minNeighbours: int, i: nat)
    requires |adj| == |image| && i < |image|
  {
    && image[i] >= picture
    && (keepIsolated || minNeighbours == 0
        || NeighboursAtLeast(adj, image, picture, i) >= minNeighbours)
  }

  /** Some neighbour of pixel i is in the picture. */
  ghost predicate HasPictureNeighbour(adj: Adjacency, image: seq<real>, picture: real,
                                      keepIsolated: bool, minNeighbours: int, i: nat)
    requires |adj| == |image| && i < |image|
  {
    exists j :: j in adj[i] && j < |image| && InPicture(adj, image, picture, keepIsolated, minNeighbours, j)
  }

  /** Some neighbour of pixel i reaches the boundary threshold. */
  ghost predicate HasBoundaryNeighbour(adj: Adjacency, image: seq<real>, boundary: real, i: nat)
    requires i < |adj|
  {
    exists j :: j in adj[i] && j < |image| && image[j] >= boundary
  }

  /** Pixel i survives cleaning: a boundary pixel next to the picture, or a
      picture pixel that (unless isolated pixels are kept) touches a boundary pixel. */
  ghost predicate Retained(adj: Adjacency, image: seq<real>, picture: real, boundary: real,
                           keepIsolated: bool, minNeighbours: int, i: nat)
    requires |adj| == |image| && i < |image|
  {
    || (image[i] >= boundary && HasPictureNeighbour(adj, image, picture, keepIsolated, minNeighbours, i))
    || (InPicture(adj, image, picture, keepIsolated, minNeighbours, i)
        && (keepIsolated || HasBoundaryNeighbour(adj, image, boundary, i)))
  }

  // ---------------------------------------------------------------------
  // The operations
  // ---------------------------------------------------------------------

  /** Number of above-picture neighbours, read off the above-picture mask. */
  lemma AbovePictureCount(adj: Adjacency, image: seq<real>, thresh: real, i: nat)
    requires |adj| == |image| && i < |image|
    ensures NeighbourCount(adj, Threshold(image, thresh), i) == NeighboursAtLeast(adj, image, thresh, i)
  {
    var above := Threshold(image, thresh);
    assert NeighboursIn(adj, above, i) == set j | j in adj[i] && j < |image| && image[j] >= thresh;
  }

  /** The pixels in the picture, as the source computes them with the neighbour matrix. */
  function PictureMask(adj: Adjacency, image: seq<real>, picture: real,
                       keepIsolated: bool, minNeighbours: int): (inPicture: seq<bool>)
    requires |adj| == |image|
    ensures |inPicture| == |image|
    ensures forall i :: 0 <= i < |image| ==>
      inPicture[i] == InPicture(adj, image, picture, keepIsolated, minNeighbours, i)
  {
    var abovePicture := Threshold(image, picture);
    if keepIsolated || minNeighbours == 0 then
      abovePicture
    else
      var counts := seq(|image|, i requires 0 <= i < |image| => NeighbourCount(adj, abovePicture, i));
      assert forall i :: 0 <= i < |image| ==> counts[i] == NeighboursAtLeast(adj, image, picture, i) by {
        forall i | 0 <= i < |image| {
          AbovePictureCount(adj, image, picture, i);
        }
      }
      seq(|image|, i requires 0 <= i < |image| => abovePicture[i] && counts[i] >= minNeighbours)
  }

  /**
   * TailcutsCleaner::tailcuts_clean: a pixel is kept when it reaches the
   * boundary threshold next to a picture pixel, or is a picture pixel itself
   * (which, without keepIsolated, must also touch a boundary pixel).
   */
  function TailcutsClean(adj: Adjacency, image: seq<real>, picture: real, boundary: real,
                         keepIsolated: bool, minNeighbours: int): (mask: seq<bool>)
    requires |adj| == |image|
    ensures |mask| == |image|
    ensures forall i :: 0 <= i < |image| ==>
      mask[i] == Retained(adj, image, picture, boundary, keepIsolated, minNeighbours, i)
  {
    var n := |image|;
    var inPicture := PictureMask(adj, image, picture, keepIsolated, minNeighbours);
    var aboveBoundary := Threshold(image, boundary);
    var withPictureNeighbours := seq(n, i requires 0 <= i < n => NeighbourCount(adj, inPicture, i) > 0);
    if keepIsolated then
      seq(n, i requires 0 <= i < n => (aboveBoundary[i] && withPictureNeighbours[i]) || inPicture[i])
    else
      var withBoundaryNeighbours := seq(n, i requires 0 <= i < n => NeighbourCount(adj, aboveBoundary, i) > 0);
      seq(n, i requires 0 <= i < n =>
        (aboveBoundary[i] && withPictureNeighbours[i]) || (inPicture[i] && withBoundaryNeighbours[i]))
  }

  /** dilate: a pixel is set afterwards when it was set or one of its neighbours was. */
  function Dilate(adj: Adjacency, mask: seq<bool>): (grown: seq<bool>)
    requires |adj| == |mask|
    ensures |grown| == |mask|
    ensures forall i :: 0 <= i < |mask| ==>
      (grown[i] <==> mask[i] || exists j :: j in adj[i] && j < |mask| && mask[j])
  {
    seq(|mask|, i requires 0 <= i < |mask| => mask[i] || NeighbourCount(adj, mask, i) > 0)
  }

  /** The largest charge, 0 for an empty image. */
  function MaxCharge(image: seq<real>): (m: real)
    ensures forall i :: 0 <= i < |image| ==> image[i] <= m
    ensures |image| == 0 ==> m == 0.0
    ensures |image| > 0 ==> exists i :: 0 <= i < |image| && image[i] == m
  {
    if |image| == 0 then 0.0
    else if |image| == 1 then image[0]
    else
      var rest := MaxCharge(image[1..]);
      assert forall i :: 1 <= i < |image| ==> image[i] == image[1..][i - 1];
      if image[0] >= rest then image[0] else rest
  }

  function Max(a: real, b: real): real {
    if a >= b then a else b
  }

  /** The automatic picture threshold: max(10, max(image) / 10). */
  function AutoPicture(image: seq<real>): (t: real)
    ensures t >= 10.0 && t >= MaxCharge(image) / 10.0
    ensures t == 10.0 || t == MaxCharge(image) / 10.0
  {
    Max(10.0, MaxCharge(image) / 10.0)
  }

  /** The automatic boundary threshold: max(5, max(image) / 20). */
  function AutoBoundary(image: seq<real>): (t: real)
    ensures t >= 5.0 && t >= MaxCharge(image) / 20.0
    ensures t == 5.0 || t == MaxCharge(image) / 20.0
  {
    Max(5.0, MaxCharge(image) / 20.0)
  }

  /** TailcutsCleaner::tailcuts_clean2: thresholds derived from the image's peak,
      the cleaner's own isolation and neighbour settings passed through. */
  function TailcutsClean2(cleaner: TailcutsCleaner, adj: Adjacency, image: seq<real>): (mask: seq<bool>)
    requires |adj| == |image|
    ensures |mask| == |image|
    ensures forall i :: 0 <= i < |image| ==>
      mask[i] == Retained(adj, image, AutoPicture(image), AutoBoundary(image),
                          cleaner.keepIsolatedPixels, cleaner.minNumberPictureNeighbors, i)
  {
    TailcutsClean(adj, image, AutoPicture(image), AutoBoundary(image),
                  cleaner.keepIsolatedPixels, cleaner.minNumberPictureNeighbors)
  }

  /** TailcutsCleaner::operator(): clean with the cleaner's configured parameters. */
  function Apply(cleaner: TailcutsCleaner, adj: Adjacency, image: seq<real>): (mask: seq<bool>)
    requires |adj| == |image|
    ensures |mask| == |image|
    ensures forall i :: 0 <= i < |image| ==>
      mask[i] == Retained(adj, image, cleaner.pictureThresh, cleaner.boundaryThresh,
                          cleaner.keepIsolatedPixels, cleaner.minNumberPictureNeighbors, i)
  {
    TailcutsClean(adj, image, cleaner.pictureThresh, cleaner.boundaryThresh,
                  cleaner.keepIsolatedPixels, cleaner.minNumberPictureNeighbors)
  }
}
