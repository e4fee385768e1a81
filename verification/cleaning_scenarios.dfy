/** The cleaning outcomes the test suite pins down on the 4 x 4 test camera. */
module CleaningScenarios {
  import opened Camera
  import opened ImageCleaner
  import opened CleaningProperties

  /** Every pixel of the test camera has between two and four neighbours. */
  lemma Grid4x4Degrees()
    ensures forall i :: 0 <= i < 16 ==> 2 <= |Grid4x4()[i]| <= 4
  {
  }

  /** An all-zero image with thresholds 1 / 1 keeps nothing. */
  lemma ScenarioEmptyImage()
    ensures Kept(TailcutsClean(Grid4x4(), seq(16, _ => 0.0), 1.0, 1.0, false, 0)) == {}
  {
    CleanZeroImage(Grid4x4(), 1.0, 1.0, false, 0);
  }

  /** A constant image of 10 with thresholds 1 / 1 keeps all 16 pixels. */
  lemma ScenarioConstantImage()
    ensures var mask := TailcutsClean(Grid4x4(), seq(16, _ => 10.0), 1.0, 1.0, false, 0);
      forall i :: 0 <= i < 16 ==> mask[i]
  {
    var image := seq(16, _ => 10.0);
    Grid4x4WellFormed();
    Grid4x4Degrees();
    CleanUniformImageKeepsAll(Grid4x4(), image, 1.0, 1.0, false, 0);
  }

  /** A constant image of 5 whose pixel 10 is raised to 10, thresholds 8 / 1:
      the bright pixel and its four neighbours survive. */
  lemma ScenarioSoloAboveThreshold()
    ensures var image := seq(16, i => if i == 10 then 10.0 else 5.0);
      Kept(TailcutsClean(Grid4x4(), image, 8.0, 1.0, false, 0)) == {6, 9, 10, 11, 14}
  {
    var adj := Grid4x4();
    var image := seq(16, i => if i == 10 then 10.0 else 5.0);
    var mask := TailcutsClean(adj, image, 8.0, 1.0, false, 0);
    forall i | 0 <= i < 16
      ensures mask[i] <==> i in {6, 9, 10, 11, 14}
    {
      assert InPicture(adj, image, 8.0, false, 0, i) <==> i == 10;
      if i in {6, 9, 11, 14} {
        assert 10 in adj[i];
      } else if i == 10 {
        assert 6 in adj[i];
      }
    }
  }

  /** Ones everywhere, pixels 0 and 10 at 10, pixels 6 and 9 at 5, thresholds 8 / 2,
      isolated pixels kept: exactly pixels 0, 6, 9 and 10 survive. */
  lemma ScenarioKeepIsolatedPixels()
    ensures var image := seq(16, i => if i == 0 || i == 10 then 10.0 else if i == 6 || i == 9 then 5.0 else 1.0);
      Kept(TailcutsClean(Grid4x4(), image, 8.0, 2.0, true, 0)) == {0, 6, 9, 10}
  {
    var adj := Grid4x4();
    var image := seq(16, i => if i == 0 || i == 10 then 10.0 else if i == 6 || i == 9 then 5.0 else 1.0);
    var mask := TailcutsClean(adj, image, 8.0, 2.0, true, 0);
    forall i | 0 <= i < 16
      ensures mask[i] <==> i in {0, 6, 9, 10}
    {
      assert InPicture(adj, image, 8.0, true, 0, i) <==> i == 0 || i == 10;
      if i in {6, 9} {
        assert 10 in adj[i];
      }
    }
  }

  /** With two bright neighbours demanded, only pixel 10 of that image seeds the picture. */
  lemma NoKeepIsolatedSeeds(image: seq<real>)
    requires |image| == 16 && forall i :: 0 <= i < 16 ==> image[i] == if i in {0, 6, 9, 10} then 10.0 else 1.0
    ensures forall i :: 0 <= i < 16 ==> (InPicture(Grid4x4(), image, 8.0, false, 2, i) <==> i == 10)
  {
    var adj := Grid4x4();
    assert (set j | j in adj[0] && j < |image| && image[j] >= 8.0) == {};
    assert (set j | j in adj[6] && j < |image| && image[j] >= 8.0) == {10};
    assert (set j | j in adj[9] && j < |image| && image[j] >= 8.0) == {10};
    assert (set j | j in adj[10] && j < |image| && image[j] >= 8.0) == {6, 9};
  }

  /** Ones everywhere, pixels 0, 6, 9 and 10 at 10, thresholds 8 / 2, two bright
      neighbours demanded: pixel 0 is dropped and exactly 6, 9 and 10 survive. */
  lemma ScenarioNoKeepIsolatedPixels()
    ensures var image := seq(16, i => if i in {0, 6, 9, 10} then 10.0 else 1.0);
      Kept(TailcutsClean(Grid4x4(), image, 8.0, 2.0, false, 2)) == {6, 9, 10}
  {
    var image := seq(16, i => if i in {0, 6, 9, 10} then 10.0 else 1.0);
    NoKeepIsolatedBright(image);
    NoKeepIsolatedFaint(image);
    KeptSixNineTen(TailcutsClean(Grid4x4(), image, 8.0, 2.0, false, 2));
  }

  lemma KeptSixNineTen(mask: seq<bool>)
    requires |mask| == 16 && !mask[0] && mask[6] && mask[9] && mask[10]
    requires forall i :: 0 <= i < 16 && i !in {0, 6, 9, 10} ==> !mask[i]
    ensures Kept(mask) == {6, 9, 10}
  {
    KeptExactly(mask, {6, 9, 10});
  }

  /** The four bright pixels: 6, 9 and 10 survive, pixel 0 has no picture neighbour. */
  lemma NoKeepIsolatedBright(image: seq<real>)
    requires |image| == 16 && forall i :: 0 <= i < 16 ==> image[i] == if i in {0, 6, 9, 10} then 10.0 else 1.0
    ensures var mask := TailcutsClean(Grid4x4(), image, 8.0, 2.0, false, 2);
      !mask[0] && mask[6] && mask[9] && mask[10]
  {
    var adj := Grid4x4();
    NoKeepIsolatedSeeds(image);
    assert adj[0] == {1, 4};
    assert 10 in adj[6] && 10 in adj[9] && 6 in adj[10];
  }

  /** The faint pixels lie below the boundary threshold and outside the picture. */
  lemma NoKeepIsolatedFaint(image: seq<real>)
    requires |image| == 16 && forall i :: 0 <= i < 16 ==> image[i] == if i in {0, 6, 9, 10} then 10.0 else 1.0
    ensures var mask := TailcutsClean(Grid4x4(), image, 8.0, 2.0, false, 2);
      forall i :: 0 <= i < 16 && i !in {0, 6, 9, 10} ==> !mask[i]
  {
    NoKeepIsolatedSeeds(image);
  }

  /** A mask whose set pixels are exactly those of s keeps s. */
  lemma KeptExactly(mask: seq<bool>, s: set<nat>)
    requires forall i :: 0 <= i < |mask| ==> (mask[i] <==> i in s)
    requires forall i :: i in s ==> i < |mask|
    ensures Kept(mask) == s
  {
  }
}
