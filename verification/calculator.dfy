/**
  The calculator strategy: the five pure functions a training run is
  parameterised by. The strategy is caller-supplied code, so it is a value
  carrying five functions; what its documentation promises about them is
  the predicate `Documented`.
 */
module Calculators {
  import opened Vectors
  import opened Cells

  datatype Calculator = Calculator(
    /** DistanceOf: distance between two vectors, read by their components. */
    distanceOf: (seq<real>, seq<real>) -> real,
    /** MapDistanceOf: distance between two cells on the map; it cannot see their weights. */
    mapDistanceOf: (Cell, Cell) -> real,
    /** NeighbourhoodRadius(iteration, total). */
    neighbourhoodRadius: (int, int) -> real,
    /** Influence(cell, distance to the BMU, radius). */
    influence: (Cell, real, real) -> real,
    /** LearningRate(iteration, total). */
    learningRate: (int, int) -> real)
  {
    function DistanceOf(a: seq<real>, b: seq<real>): real { distanceOf(a, b) }
    function MapDistanceOf(a: Cell, b: Cell): real { mapDistanceOf(a, b) }
    function NeighbourhoodRadius(iteration: int, total: int): real { neighbourhoodRadius(iteration, total) }
    function Influence(cell: Cell, distance: real, radius: real): real { influence(cell, distance, radius) }
    function LearningRate(iteration: int, total: int): real { learningRate(iteration, total) }
  }

  /**
    The ranges the interface documents, for the cells of one map: an
    influence and a learning rate between 0 and 1, and a radius that does not
    grow as the iteration number does within one run.
   */
  ghost predicate Documented(c: Calculator, cells: seq<Cell>)
  {
    && (forall k, d, r :: 0 <= k < |cells| ==> 0.0 <= c.Influence(cells[k], d, r) <= 1.0)
    && (forall i, t :: 0.0 <= c.LearningRate(i, t) <= 1.0)
    && (forall i, j, t :: i <= j ==> c.NeighbourhoodRadius(j, t) <= c.NeighbourhoodRadius(i, t))
  }

  /** Under the documented ranges, the factor θ·L applied to a weight update lies in [0, 1]. */
  lemma DocumentedFactorInUnitInterval(c: Calculator, cells: seq<Cell>, k: nat, d: real, r: real, i: int, t: int)
    requires Documented(c, cells) && k < |cells|
    ensures 0.0 <= c.Influence(cells[k], d, r) * c.LearningRate(i, t) <= 1.0
  {
    var theta, rate := c.Influence(cells[k], d, r), c.LearningRate(i, t);
    assert 0.0 <= theta <= 1.0 && 0.0 <= rate <= 1.0;
    var rest := 1.0 - theta;
    NonNegativeProduct(theta, rate);
    NonNegativeProduct(rest, rate);
    assert theta * rate == rate - rest * rate;
  }

  /**
    Under the documented ranges the neighbourhood never grows within a run:
    two cells closer than the radius of iteration j were already closer than
    the radius of every earlier iteration i.
   */
  lemma NeighbourhoodNeverGrows(c: Calculator, cells: seq<Cell>, x: Cell, y: Cell, i: int, j: int, t: int)
    requires Documented(c, cells) && i <= j
    ensures c.MapDistanceOf(x, y) < c.NeighbourhoodRadius(j, t) ==> c.MapDistanceOf(x, y) < c.NeighbourhoodRadius(i, t)
  {
  }

  lemma NonNegativeProduct(a: real, b: real)
    requires 0.0 <= a && 0.0 <= b
    ensures 0.0 <= a * b
  {
  }
}
