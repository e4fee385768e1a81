/**
 * The pixel-adjacency relation of a camera. The camera geometry that builds
 * it is not part of this model: the relation is taken as given, and the
 * neighbour matrix product `neigh_matrix * mask` becomes a count of the
 * neighbours whose flag is set.
 */
module Camera {

  /** adj[i] holds the pixels adjacent to pixel i. */
  type Adjacency = seq<set<nat>>

  /** Adjacency is a symmetric, irreflexive relation over the pixels 0 .. |adj|-1. */
  ghost predicate WellFormed(adj: Adjacency) {
    forall i, j {:trigger j in adj[i]} :: 0 <= i < |adj| && j in adj[i] ==> j < |adj| && j != i && i in adj[j]
  }

  /** The neighbours of pixel i whose flag is set in `mask`. */
  function NeighboursIn(adj: Adjacency, mask: seq<bool>, i: nat): set<nat>
    requires i < |adj|
  {
    set j | j in adj[i] && j < |mask| && mask[j]
  }

  /** Row i of `neigh_matrix * mask`: how many neighbours of pixel i are flagged. */
  function NeighbourCount(adj: Adjacency, mask: seq<bool>, i: nat): (count: nat)
    requires i < |adj|
    ensures count > 0 <==> exists j :: j in adj[i] && j < |mask| && mask[j]
    ensures count <= |adj[i]|
  {
    var s := NeighboursIn(adj, mask, i);
    if s != {} then
      var j :| j in s;
      assert j in adj[i] && j < |mask| && mask[j];
      SubsetCardinality(s, adj[i]);
      |s|
    else
      assert forall j :: j in adj[i] && j < |mask| && mask[j] ==> j in s;
      |s|
  }

  /** A subset is never larger than its superset. */
  lemma {:induction false} SubsetCardinality<T>(a: set<T>, b: set<T>)
    requires a <= b
    ensures |a| <= |b|
    decreases |b|
  {
    if a != {} {
      var x :| x in a;
      SubsetCardinality(a - {x}, b - {x});
    }
  }

  /** Flagging more pixels never lowers a neighbour count. */
  lemma NeighbourCountMonotone(adj: Adjacency, m1: seq<bool>, m2: seq<bool>, i: nat)
    requires i < |adj|
    requires |m1| == |m2|
    requires forall k :: 0 <= k < |m1| && m1[k] ==> m2[k]
    ensures NeighbourCount(adj, m1, i) <= NeighbourCount(adj, m2, i)
  {
    SubsetCardinality(NeighboursIn(adj, m1, i), NeighboursIn(adj, m2, i));
  }

  /** When every neighbour of pixel i is flagged, the count is the neighbour count of i. */
  lemma NeighbourCountAll(adj: Adjacency, mask: seq<bool>, i: nat)
    requires i < |adj|
    requires forall j :: j in adj[i] ==> j < |mask| && mask[j]
    ensures NeighbourCount(adj, mask, i) == |adj[i]|
  {
    assert NeighboursIn(adj, mask, i) == adj[i];
  }

  /**
   * The 4 x 4 square camera with unit pitch used by the cleaning tests:
   * pixel index = 4 * row + column, and two pixels are neighbours when
   * they share an edge.
   */
  function Grid4x4(): (adj: Adjacency)
    ensures |adj| == 16
  {
    [ {1, 4},     {0, 2, 5},     {1, 3, 6},      {2, 7},
      {0, 5, 8},  {1, 4, 6, 9},  {2, 5, 7, 10},  {3, 6, 11},
      {4, 9, 12}, {5, 8, 10, 13}, {6, 9, 11, 14}, {7, 10, 15},
      {8, 13},    {9, 12, 14},   {10, 13, 15},   {11, 14} ]
  }

  /** The test camera's relation is symmetric and irreflexive. */
  lemma Grid4x4WellFormed()
    ensures WellFormed(Grid4x4())
  {
    var adj := Grid4x4();
    forall i, j | 0 <= i < |adj| && j in adj[i]
      ensures j < |adj| && j != i && i in adj[j]
    {
      assert i in {0, 1, 2, 3, 4, 5, 6, 7, 8, 9, 10, 11, 12, 13, 14, 15};
    }
  }

  /** Pixels i and j of the 4 x 4 grid (index 4 * row + column) share an edge. */
  predicate ShareEdge(i: nat, j: nat) {
    var ri, ci, rj, cj := i / 4, i % 4, j / 4, j % 4;
    || (ri == rj && (ci == cj + 1 || cj == ci + 1))
    || (ci == cj && (ri == rj + 1 || rj == ri + 1))
  }

  /** The test camera's neighbour sets are exactly the edge-sharing pixels of the grid. */
  lemma Grid4x4SharesEdges()
    ensures forall i, j :: 0 <= i < 16 && 0 <= j < 16 ==> (j in Grid4x4()[i] <==> ShareEdge(i, j))
  {
    forall i, j | 0 <= i < 16 && 0 <= j < 16
      ensures j in Grid4x4()[i] <==> ShareEdge(i, j)
    {
      assert i in {0, 1, 2, 3, 4, 5, 6, 7, 8, 9, 10, 11, 12, 13, 14, 15};
      assert j in {0, 1, 2, 3, 4, 5, 6, 7, 8, 9, 10, 11, 12, 13, 14, 15};
    }
  }
}
