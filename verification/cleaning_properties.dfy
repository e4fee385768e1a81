/** What tailcuts cleaning and dilation guarantee, and the outcomes the tests pin down. */
module CleaningProperties {
  import opened Camera
  import opened ImageCleaner

  /** The set of pixels a mask keeps. */
  function Kept(mask: seq<bool>): set<nat> {
    set i | 0 <= i < |mask| && mask[i]
  }

  // ---------------------------------------------------------------------
  // tailcuts_clean
  // ---------------------------------------------------------------------

  /** Every kept pixel reaches the boundary or the picture threshold. */
  lemma CleanKeepsOnlyCharged(adj: Adjacency, image: seq<real>, picture: real, boundary: real,
                              keepIsolated: bool, minNeighbours: int)
    requires |adj| == |image|
    ensures var mask := TailcutsClean(adj, image, picture, boundary, keepIsolated, minNeighbours);
      forall i :: 0 <= i < |image| && mask[i] ==> image[i] >= boundary || image[i] >= picture
  {
  }

  /** Without a pixel at the picture threshold nothing survives. */
  lemma CleanWithoutPictureIsEmpty(adj: Adjacency, image: seq<real>, picture: real, boundary: real,
                                   keepIsolated: bool, minNeighbours: int)
    requires |adj| == |image|
    requires forall i :: 0 <= i < |image| ==> image[i] < picture
    ensures Kept(TailcutsClean(adj, image, picture, boundary, keepIsolated, minNeighbours)) == {}
  {
    var mask := TailcutsClean(adj, image, picture, boundary, keepIsolated, minNeighbours);
    forall i | 0 <= i < |image|
      ensures !mask[i]
    {
      forall j | j in adj[i] && j < |image|
        ensures !InPicture(adj, image, picture, keepIsolated, minNeighbours, j)
      {
      }
    }
  }

  /** The all-zero image with a positive picture threshold cleans to the empty mask. */
  lemma CleanZeroImage(adj: Adjacency, picture: real, boundary: real,
                       keepIsolated: bool, minNeighbours: int)
    requires picture > 0.0
    ensures var zero := seq(|adj|, _ => 0.0);
      Kept(TailcutsClean(adj, zero, picture, boundary, keepIsolated, minNeighbours)) == {}
  {
    CleanWithoutPictureIsEmpty(adj, seq(|adj|, _ => 0.0), picture, boundary, keepIsolated, minNeighbours);
  }

  /** With keepIsolated every pixel at the picture threshold survives. */
  lemma CleanKeepsIsolatedPicture(adj: Adjacency, image: seq<real>, picture: real, boundary: real,
                                  minNeighbours: int)
    requires |adj| == |image|
    ensures var mask := TailcutsClean(adj, image, picture, boundary, true, minNeighbours);
      forall i :: 0 <= i < |image| && image[i] >= picture ==> mask[i]
  {
  }

  /**
   * Without keepIsolated and with a positive neighbour demand, a bright pixel
   * with too few bright neighbours is not in the picture: it survives only as
   * a boundary pixel next to the picture.
   */
  lemma CleanDropsPoorlyConnected(adj: Adjacency, image: seq<real>, picture: real, boundary: real,
                                  minNeighbours: int, i: nat)
    requires |adj| == |image| && i < |image|
    requires minNeighbours > 0
    requires NeighboursAtLeast(adj, image, picture, i) < minNeighbours
    ensures TailcutsClean(adj, image, picture, boundary, false, minNeighbours)[i]
        <==> image[i] >= boundary && HasPictureNeighbour(adj, image, picture, false, minNeighbours, i)
  {
  }

  /** Without keepIsolated, a picture pixel survives only if some neighbour reaches the boundary threshold. */
  lemma CleanPictureNeedsBoundaryNeighbour(adj: Adjacency, image: seq<real>, picture: real, boundary: real,
                                           minNeighbours: int, i: nat)
    requires |adj| == |image| && i < |image|
    requires InPicture(adj, image, picture, false, minNeighbours, i)
    requires !HasBoundaryNeighbour(adj, image, boundary, i)
    ensures TailcutsClean(adj, image, picture, boundary, false, minNeighbours)[i]
        <==> image[i] >= boundary && HasPictureNeighbour(adj, image, picture, false, minNeighbours, i)
  {
  }

  /** Without keepIsolated no kept pixel is isolated: each has a kept neighbour. */
  lemma CleanHasNoIsolatedPixels(adj: Adjacency, image: seq<real>, picture: real, boundary: real,
                                 minNeighbours: int)
    requires |adj| == |image|
    requires WellFormed(adj)
    ensures var mask := TailcutsClean(adj, image, picture, boundary, false, minNeighbours);
      forall i :: 0 <= i < |image| && mask[i] ==> exists j :: j in adj[i] && j < |image| && mask[j]
  {
    var mask := TailcutsClean(adj, image, picture, boundary, false, minNeighbours);
    forall i | 0 <= i < |image| && mask[i]
      ensures exists j :: j in adj[i] && j < |image| && mask[j]
    {
      if image[i] >= boundary && HasPictureNeighbour(adj, image, picture, false, minNeighbours, i) {
        // the picture neighbour has i as an above-boundary neighbour
        var j :| j in adj[i] && j < |image| && InPicture(adj, image, picture, false, minNeighbours, j);
        assert i in adj[j];
        assert HasBoundaryNeighbour(adj, image, boundary, j);
        assert mask[j];
      } else {
        // i is in the picture and touches a boundary pixel, which therefore has a picture neighbour
        var j :| j in adj[i] && j < |image| && image[j] >= boundary;
        assert i in adj[j];
        assert HasPictureNeighbour(adj, image, picture, false, minNeighbours, j);
        assert mask[j];
      }
    }
  }

  /**
   * An image at or above both thresholds everywhere, on a camera where every
   * pixel has at least one and at least minNeighbours neighbours, keeps every pixel.
   */
  lemma CleanUniformImageKeepsAll(adj: Adjacency, image: seq<real>, picture: real, boundary: real,
                                  keepIsolated: bool, minNeighbours: int)
    requires |adj| == |image|
    requires WellFormed(adj)
    requires forall i :: 0 <= i < |image| ==> image[i] >= picture && image[i] >= boundary
    requires forall i :: 0 <= i < |adj| ==> adj[i] != {} && |adj[i]| >= minNeighbours
    ensures var mask := TailcutsClean(adj, image, picture, boundary, keepIsolated, minNeighbours);
      forall i :: 0 <= i < |image| ==> mask[i]
  {
    var mask := TailcutsClean(adj, image, picture, boundary, keepIsolated, minNeighbours);
    forall i | 0 <= i < |image|
      ensures InPicture(adj, image, picture, keepIsolated, minNeighbours, i)
    {
      assert NeighboursAtLeast(adj, image, picture, i) == |adj[i]| by {
        forall j | j in adj[i]
          ensures j < |image| && image[j] >= picture
        {
        }
        assert (set j | j in adj[i] && j < |image| && image[j] >= picture) == adj[i];
      }
    }
    forall i | 0 <= i < |image|
      ensures mask[i]
    {
      var j :| j in adj[i];
      assert j < |image| && image[j] >= boundary;
      assert HasBoundaryNeighbour(adj, image, boundary, i);
    }
  }

  /** Neighbour counts grow with the charges and shrink with the threshold. */
  lemma NeighboursAtLeastMonotone(adj: Adjacency, image1: seq<real>, image2: seq<real>,
                                  t1: real, t2: real, i: nat)
    requires |image1| == |image2| && i < |adj|
    requires t2 <= t1
    requires forall k :: 0 <= k < |image1| ==> image1[k] <= image2[k]
    ensures NeighboursAtLeast(adj, image1, t1, i) <= NeighboursAtLeast(adj, image2, t2, i)
  {
    SubsetCardinality(set j | j in adj[i] && j < |image1| && image1[j] >= t1,
                      set j | j in adj[i] && j < |image2| && image2[j] >= t2);
  }

  /**
   * Cleaning is monotone: raising charges or lowering thresholds never
   * removes a pixel from the mask.
   */
  lemma CleanMonotone(adj: Adjacency, image1: seq<real>, image2: seq<real>,
                      picture1: real, boundary1: real, picture2: real, boundary2: real,
                      keepIsolated: bool, minNeighbours: int)
    requires |adj| == |image1| == |image2|
    requires picture2 <= picture1 && boundary2 <= boundary1
    requires forall k :: 0 <= k < |image1| ==> image1[k] <= image2[k]
    ensures Kept(TailcutsClean(adj, image1, picture1, boundary1, keepIsolated, minNeighbours))
         <= Kept(TailcutsClean(adj, image2, picture2, boundary2, keepIsolated, minNeighbours))
  {
    var mask1 := TailcutsClean(adj, image1, picture1, boundary1, keepIsolated, minNeighbours);
    var mask2 := TailcutsClean(adj, image2, picture2, boundary2, keepIsolated, minNeighbours);
    forall k | 0 <= k < |image1| && InPicture(adj, image1, picture1, keepIsolated, minNeighbours, k)
      ensures InPicture(adj, image2, picture2, keepIsolated, minNeighbours, k)
    {
      NeighboursAtLeastMonotone(adj, image1, image2, picture1, picture2, k);
    }
    forall i | 0 <= i < |image1| && mask1[i]
      ensures mask2[i]
    {
      if image1[i] >= boundary1 && HasPictureNeighbour(adj, image1, picture1, keepIsolated, minNeighbours, i) {
        var j :| j in adj[i] && j < |image1| && InPicture(adj, image1, picture1, keepIsolated, minNeighbours, j);
        assert InPicture(adj, image2, picture2, keepIsolated, minNeighbours, j);
      } else if !keepIsolated {
        var j :| j in adj[i] && j < |image1| && image1[j] >= boundary1;
        assert image2[j] >= boundary2;
      }
    }
  }

  // ---------------------------------------------------------------------
  // dilate
  // ---------------------------------------------------------------------

  /** Dilation never removes a pixel. */
  lemma DilateExtensive(adj: Adjacency, mask: seq<bool>)
    requires |adj| == |mask|
    ensures Kept(mask) <= Kept(Dilate(adj, mask))
  {
  }

  /** Dilation is monotone in the mask. */
  lemma DilateMonotone(adj: Adjacency, m1: seq<bool>, m2: seq<bool>)
    requires |adj| == |m1| == |m2|
    requires Kept(m1) <= Kept(m2)
    ensures Kept(Dilate(adj, m1)) <= Kept(Dilate(adj, m2))
  {
    var d1 := Dilate(adj, m1);
    forall i | 0 <= i < |m1| && d1[i]
      ensures Dilate(adj, m2)[i]
    {
      if !m1[i] {
        var j :| j in adj[i] && j < |m1| && m1[j];
        assert j in Kept(m1);
      } else {
        assert i in Kept(m1);
      }
    }
  }

  /** Dilating a single pixel adds exactly its neighbours. */
  lemma DilateSinglePixel(adj: Adjacency, p: nat)
    requires WellFormed(adj) && p < |adj|
    ensures Kept(Dilate(adj, seq(|adj|, i => i == p))) == {p} + adj[p]
  {
    var mask := seq(|adj|, i => i == p);
    var grown := Dilate(adj, mask);
    forall i | 0 <= i < |adj|
      ensures grown[i] <==> i == p || i in adj[p]
    {
      if i in adj[p] {
        assert p in adj[i];
      }
    }
    forall x | x in {p} + adj[p]
      ensures x in Kept(grown)
    {
      assert x < |adj|;
    }
  }

  /** On the 4 x 4 test camera a single corner pixel dilates to {0, 1, 4}. */
  lemma DilateCornerOf4x4()
    ensures Kept(Dilate(Grid4x4(), seq(16, i => i == 0))) == {0, 1, 4}
  {
    Grid4x4WellFormed();
    DilateSinglePixel(Grid4x4(), 0);
  }

  // ---------------------------------------------------------------------
  // tailcuts_clean2
  // ---------------------------------------------------------------------

  /** With automatic thresholds every kept pixel carries a charge of at least 5. */
  lemma Clean2KeepsAtLeastFive(cleaner: TailcutsCleaner, adj: Adjacency, image: seq<real>)
    requires |adj| == |image|
    ensures var mask := TailcutsClean2(cleaner, adj, image);
      forall i :: 0 <= i < |image| && mask[i] ==> image[i] >= 5.0
  {
  }

  /** An image whose peak stays below 10 cleans to nothing under automatic thresholds. */
  lemma Clean2FaintImageIsEmpty(cleaner: TailcutsCleaner, adj: Adjacency, image: seq<real>)
    requires |adj| == |image|
    requires MaxCharge(image) < 10.0
    ensures Kept(TailcutsClean2(cleaner, adj, image)) == {}
  {
    CleanWithoutPictureIsEmpty(adj, image, AutoPicture(image), AutoBoundary(image),
                               cleaner.keepIsolatedPixels, cleaner.minNumberPictureNeighbors);
  }

  /** With keepIsolated set, the brightest pixel of an image peaking at 10 or more is kept. */
  lemma Clean2KeepsPeak(cleaner: TailcutsCleaner, adj: Adjacency, image: seq<real>, i: nat)
    requires |adj| == |image| && i < |image|
    requires cleaner.keepIsolatedPixels
    requires image[i] == MaxCharge(image) >= 10.0
    ensures TailcutsClean2(cleaner, adj, image)[i]
  {
    assert AutoPicture(image) <= image[i];
  }
}
