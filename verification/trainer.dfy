/**
  The training algorithm. Each of N iterations calls the step callback,
  picks an input, finds the best-matching unit (BMU), computes the
  neighbourhood radius once, and pulls every cell strictly inside the
  radius toward the input: W := W + θ·L·(V − W), in place. The completion
  callback runs once at the end.

  The specification functions describe one run on values: the weights of
  the map's cells in traversal order, the inputs' components, and the
  values the random source yields.
 */
module Training {
  import opened Outcomes
  import opened Vectors
  import opened Cells
  import opened Maps
  import opened Calculators

  /** double.MaxValue, the starting minimum of the BMU search. */
  const MaxDouble: real := 179769313486231570814527423731704356798070567525844996598917476803157260780028538760589558632766878171540458953514382464234321326889464182768467546703537516986049910576551282076245490090389328944075868508455133942304583236903222948165808559332123348274797826204144723168738177180919299881250404026184124858368.0

  /** A callback invocation. */
  datatype Event =
    /** TrainStepArgs: the live map, and the weights visible through it when the callback runs. */
    | Step(mapSnapshot: Map, seen: seq<seq<real>>)
    /** TrainCompleteArgs: the live map. */
    | Complete(resultMap: Map)

  /** The components of each vector, in order. */
  function Contents(vs: seq<Vector>): (cs: seq<seq<real>>)
    reads vs
    ensures |cs| == |vs|
  {
    seq(|vs|, k requires 0 <= k < |vs| reads vs => vs[k].elems)
  }

  /** Vectors whose components are all as they were have the same contents. */
  twostate lemma ContentsKept(vs: seq<Vector>)
    requires forall k :: 0 <= k < |vs| ==> vs[k].elems == old(vs[k].elems)
    ensures Contents(vs) == old(Contents(vs))
  {
  }

  /** The distance of every weight to the input, in traversal order. */
  function Distances(calculator: Calculator, ws: seq<seq<real>>, input: seq<real>): (ds: seq<real>)
    ensures |ds| == |ws|
  {
    seq(|ws|, j requires 0 <= j < |ws| => calculator.DistanceOf(ws[j], input))
  }

  /**
    The position the BMU search settles on: the first distance strictly below
    every distance before it, starting from double.MaxValue; none when no
    distance is below double.MaxValue (an empty map in particular).
   */
  function ArgMin(ds: seq<real>): (b: Option<nat>)
    ensures b.Some? ==> b.value < |ds|
  {
    if ds == [] then None
    else
      var last := |ds| - 1;
      match ArgMin(ds[..last])
      case None => if ds[last] < MaxDouble then Some(last) else None
      case Some(b) => if ds[last] < ds[b] then Some(last) else Some(b)
  }

  /**
    The BMU search finds a position whose distance is below double.MaxValue,
    no greater than any other, and strictly below every earlier one; it
    finds none exactly when no distance is below double.MaxValue.
   */
  lemma {:induction false} ArgMinIsMinimal(ds: seq<real>)
    ensures var b := ArgMin(ds);
            && (b.Some? ==> ds[b.value] < MaxDouble)
            && (b.Some? ==> forall j :: 0 <= j < |ds| ==> ds[b.value] <= ds[j])
            && (b.Some? ==> forall j :: 0 <= j < b.value ==> ds[b.value] < ds[j])
            && (b.None? <==> forall j :: 0 <= j < |ds| ==> MaxDouble <= ds[j])
  {
    if ds != [] {
      var last := |ds| - 1;
      var init := ds[..last];
      ArgMinIsMinimal(init);
      assert forall j :: 0 <= j < last ==> init[j] == ds[j];
    }
  }

  /** The three properties of ArgMin single out one position: ties go to the earliest cell. */
  lemma ArgMinIsTheFirstMinimum(ds: seq<real>, b: nat)
    requires b < |ds| && ds[b] < MaxDouble
    requires forall j :: 0 <= j < |ds| ==> ds[b] <= ds[j]
    requires forall j :: 0 <= j < b ==> ds[b] < ds[j]
    ensures ArgMin(ds) == Some(b)
  {
    ArgMinIsMinimal(ds);
  }

  /** W + θ·L·(V − W), component by component, each step being one of the vector operations' element-wise steps. */
  function Adjusted(w: seq<real>, v: seq<real>, factor: real): (a: seq<real>)
    requires |w| == |v|
    ensures |a| == |w|
    decreases |w|
  {
    if w == [] then []
    else [Apply(Plus, w[0], Apply(Times, Apply(Minus, v[0], w[0]), factor))] + Adjusted(w[1..], v[1..], factor)
  }

  lemma {:induction false} AdjustedAt(w: seq<real>, v: seq<real>, factor: real, i: int)
    requires |w| == |v| && 0 <= i < |w|
    ensures Adjusted(w, v, factor)[i] == Apply(Plus, w[i], Apply(Times, Apply(Minus, v[i], w[i]), factor))
    decreases i
  {
    if i > 0 {
      AdjustedAt(w[1..], v[1..], factor, i - 1);
    }
  }

  /**
    The update as AjustCellWeight performs it: Subtract(input, w), then
    Multiply by the factor, then Add into w, yields W + θ·L·(V − W).
   */
  lemma AdjustedByVectorOperations(w: seq<real>, v: seq<real>, factor: real)
    requires |w| == |v|
    ensures Pointwise(Plus, w, Pointwise(Times, Pointwise(Minus, v, w), Repeat(factor, |w|))) == Adjusted(w, v, factor)
  {
    var diff := Pointwise(Minus, v, w);
    var factors := Repeat(factor, |w|);
    var scaled := Pointwise(Times, diff, factors);
    forall i | 0 <= i < |w|
      ensures Pointwise(Plus, w, scaled)[i] == Adjusted(w, v, factor)[i]
    {
      AdjustedAt(w, v, factor, i);
      assert factors[i] == factor;
    }
  }

  /** With a factor in [0, 1], every adjusted component lies between the old component and the input's. */
  lemma AdjustedStaysBetween(w: seq<real>, v: seq<real>, factor: real, i: int)
    requires |w| == |v| && 0 <= i < |w| && 0.0 <= factor <= 1.0
    ensures w[i] <= v[i] ==> w[i] <= Adjusted(w, v, factor)[i] <= v[i]
    ensures v[i] <= w[i] ==> v[i] <= Adjusted(w, v, factor)[i] <= w[i]
  {
    AdjustedAt(w, v, factor, i);
    StepStaysBetween(w[i], v[i], factor);
  }

  /** One component: x + (y − x)·f with f in [0, 1] lies between x and y. */
  lemma StepStaysBetween(x: real, y: real, factor: real)
    requires 0.0 <= factor <= 1.0
    ensures var z := Apply(Plus, x, Apply(Times, Apply(Minus, y, x), factor));
            (x <= y ==> x <= z <= y) && (y <= x ==> y <= z <= x)
  {
    var gap := if x <= y then y - x else x - y;
    var moved := gap * factor;
    var rest := gap * (1.0 - factor);
    NonNegativeProduct(gap, factor);
    NonNegativeProduct(gap, 1.0 - factor);
    assert moved + rest == gap;
    assert (y - x) * factor == if x <= y then moved else -moved;
  }

  /** A full-strength update (θ·L = 1) replaces the weight with the input. */
  lemma FullFactorReachesInput(w: seq<real>, v: seq<real>)
    requires |w| == |v|
    ensures Adjusted(w, v, 1.0) == v
  {
    forall i | 0 <= i < |w|
      ensures Adjusted(w, v, 1.0)[i] == v[i]
    {
      AdjustedAt(w, v, 1.0, i);
    }
  }

  /** Pulling a weight toward itself leaves it as it is. */
  lemma {:induction false} AdjustedTowardItself(w: seq<real>, factor: real)
    ensures Adjusted(w, w, factor) == w
  {
    forall i | 0 <= i < |w|
      ensures Adjusted(w, w, factor)[i] == w[i]
    {
      AdjustedAt(w, w, factor, i);
    }
  }

  /** θ·L: a cell's influence at its map distance from the BMU, times the learning rate of the iteration. */
  function UpdateFactor(calculator: Calculator, cell: Cell, distance: real, radius: real, iteration: int, total: int): real
  {
    calculator.Influence(cell, distance, radius) * calculator.LearningRate(iteration, total)
  }

  /** What one iteration fixes before any weight changes: the input, the BMU and the radius. */
  datatype Round = Round(calculator: Calculator, cells: seq<Cell>, input: seq<real>, bmu: nat, radius: real,
                         iteration: int, total: int)
  {
    predicate Valid()
    {
      bmu < |cells|
    }

    function MapDistance(j: nat): real
      requires Valid() && j < |cells|
    {
      calculator.MapDistanceOf(cells[j], cells[bmu])
    }

    /** Strictly inside the radius: a cell exactly at the radius is not adjusted. */
    predicate InRadius(j: nat)
      requires Valid() && j < |cells|
    {
      MapDistance(j) < radius
    }

    /** θ·L for the cell at position j. */
    function Factor(j: nat): real
      requires Valid() && j < |cells|
    {
      UpdateFactor(calculator, cells[j], MapDistance(j), radius, iteration, total)
    }
  }

  /** The weights after (part of) an operation, and how it ended. */
  datatype Effect = Effect(weights: seq<seq<real>>, outcome: Outcome)

  /**
    The update traversal from position j on: cells outside the radius are
    skipped, cells inside it are adjusted, and the first cell inside it whose
    dimension differs from the input's stops the traversal with the cells
    before it already updated.
   */
  function Sweep(r: Round, ws: seq<seq<real>>, j: nat): (e: Effect)
    requires r.Valid() && |ws| == |r.cells| && j <= |ws|
    ensures |e.weights| == |ws|
    decreases |ws| - j
  {
    if j == |ws| then Effect(ws, Pass)
    else if !r.InRadius(j) then Sweep(r, ws, j + 1)
    else if |ws[j]| != |r.input| then Effect(ws, Fail(DimensionMismatch))
    else Sweep(r, ws[j := Adjusted(ws[j], r.input, r.Factor(j))], j + 1)
  }

  /** The traversal succeeds exactly when every cell inside the radius has the input's dimension. */
  lemma {:induction false} SweepOutcome(r: Round, ws: seq<seq<real>>, j: nat)
    requires r.Valid() && |ws| == |r.cells| && j <= |ws|
    ensures Sweep(r, ws, j).outcome.Pass? <==>
            forall k :: j <= k < |ws| && r.InRadius(k) ==> |ws[k]| == |r.input|
    ensures Sweep(r, ws, j).outcome.Fail? ==> Sweep(r, ws, j).outcome.error == DimensionMismatch
    decreases |ws| - j
  {
    if j < |ws| {
      if !r.InRadius(j) {
        SweepOutcome(r, ws, j + 1);
      } else if |ws[j]| == |r.input| {
        var ws' := ws[j := Adjusted(ws[j], r.input, r.Factor(j))];
        SweepOutcome(r, ws', j + 1);
        assert forall k :: j < k < |ws| ==> ws'[k] == ws[k];
      }
    }
  }

  /** Cells at or beyond the radius, and cells before the starting point, keep their weights. */
  lemma {:induction false} SweepKeepsOutside(r: Round, ws: seq<seq<real>>, j: nat, k: nat)
    requires r.Valid() && |ws| == |r.cells| && j <= |ws| && k < |ws|
    requires k < j || !r.InRadius(k)
    ensures Sweep(r, ws, j).weights[k] == ws[k]
    decreases |ws| - j
  {
    if j < |ws| {
      if !r.InRadius(j) {
        SweepKeepsOutside(r, ws, j + 1, k);
      } else if |ws[j]| == |r.input| {
        SweepKeepsOutside(r, ws[j := Adjusted(ws[j], r.input, r.Factor(j))], j + 1, k);
      }
    }
  }

  /**
    A cell inside the radius is adjusted once the traversal reaches it, that is,
    when no cell inside the radius from the starting point up to it has a
    dimension other than the input's.
   */
  lemma {:induction false} SweepAdjustsInside(r: Round, ws: seq<seq<real>>, j: nat, k: nat)
    requires r.Valid() && |ws| == |r.cells| && j <= k < |ws| && r.InRadius(k)
    requires forall i :: j <= i <= k && r.InRadius(i) ==> |ws[i]| == |r.input|
    ensures |ws[k]| == |r.input|
    ensures Sweep(r, ws, j).weights[k] == Adjusted(ws[k], r.input, r.Factor(k))
    decreases |ws| - j
  {
    if !r.InRadius(j) {
      SweepAdjustsInside(r, ws, j + 1, k);
    } else {
      var ws' := ws[j := Adjusted(ws[j], r.input, r.Factor(j))];
      if j == k {
        SweepKeepsOutside(r, ws', j + 1, k);
      } else {
        SweepAdjustsInside(r, ws', j + 1, k);
      }
    }
  }

  /** No rollback and no further progress: a mismatching cell and every cell after it keep their weights. */
  lemma {:induction false} SweepStopsAtMismatch(r: Round, ws: seq<seq<real>>, j: nat, f: nat, k: nat)
    requires r.Valid() && |ws| == |r.cells| && j <= f <= k < |ws|
    requires r.InRadius(f) && |ws[f]| != |r.input|
    ensures Sweep(r, ws, j).weights[k] == ws[k]
    decreases |ws| - j
  {
    if !r.InRadius(j) {
      SweepStopsAtMismatch(r, ws, j + 1, f, k);
    } else if |ws[j]| == |r.input| {
      SweepStopsAtMismatch(r, ws[j := Adjusted(ws[j], r.input, r.Factor(j))], j + 1, f, k);
    }
  }

  /** With the documented calculator ranges, every component of every weight moves toward the input, never past it. */
  lemma SweepMovesTowardInput(r: Round, ws: seq<seq<real>>, k: nat, i: nat)
    requires r.Valid() && |ws| == |r.cells| && k < |ws| && Documented(r.calculator, r.cells)
    requires |ws[k]| == |r.input| && i < |r.input|
    ensures var w := Sweep(r, ws, 0).weights[k];
            |w| == |ws[k]| &&
            (ws[k][i] <= r.input[i] ==> ws[k][i] <= w[i] <= r.input[i]) &&
            (r.input[i] <= ws[k][i] ==> r.input[i] <= w[i] <= ws[k][i])
  {
    var w := Sweep(r, ws, 0).weights[k];
    if r.InRadius(k) && forall m :: 0 <= m <= k && r.InRadius(m) ==> |ws[m]| == |r.input| {
      SweepAdjustsInside(r, ws, 0, k);
      DocumentedFactorInUnitInterval(r.calculator, r.cells, k, r.MapDistance(k), r.radius, r.iteration, r.total);
      AdjustedStaysBetween(ws[k], r.input, r.Factor(k), i);
      AdjustedAt(ws[k], r.input, r.Factor(k), i);
    } else if !r.InRadius(k) {
      SweepKeepsOutside(r, ws, 0, k);
    } else {
      var f :| 0 <= f <= k && r.InRadius(f) && |ws[f]| != |r.input|;
      SweepStopsAtMismatch(r, ws, 0, f, k);
    }
  }

  /**
    One iteration on values (ApplyInput): pick the input the random source
    points at, find the BMU among the current weights, compute the radius
    once, then run the update traversal.
   */
  function Iteration(calculator: Calculator, cells: seq<Cell>, inputs: seq<seq<real>>, draw: nat,
                     iteration: int, total: int, ws: seq<seq<real>>): (e: Effect)
    requires |ws| == |cells|
    ensures |e.weights| == |ws|
  {
    if draw >= |inputs| then Effect(ws, Fail(IndexOutOfRange))
    else
      var input := inputs[draw];
      match ArgMin(Distances(calculator, ws, input))
      case None => Effect(ws, Fail(BmuNotFound))
      case Some(b) =>
        Sweep(Round(calculator, cells, input, b, calculator.NeighbourhoodRadius(iteration, total), iteration, total), ws, 0)
  }

  /**
    The ways one iteration ends: Choice fails exactly when the draw is past
    the last input; the BMU search fails exactly when the input is drawn but
    no weight is closer to it than double.MaxValue; any other failure is a
    dimension mismatch in the traversal.
   */
  lemma IterationOutcome(calculator: Calculator, cells: seq<Cell>, inputs: seq<seq<real>>, draw: nat,
                         iteration: int, total: int, ws: seq<seq<real>>)
    requires |ws| == |cells|
    ensures var e := Iteration(calculator, cells, inputs, draw, iteration, total, ws);
            && (e.outcome == Fail(IndexOutOfRange) <==> draw >= |inputs|)
            && (e.outcome == Fail(BmuNotFound) <==>
                  draw < |inputs| && forall j :: 0 <= j < |ws| ==> MaxDouble <= calculator.DistanceOf(ws[j], inputs[draw]))
            && (e.outcome.Fail? ==> e.outcome.error in {IndexOutOfRange, BmuNotFound, DimensionMismatch})
  {
    if draw < |inputs| {
      var input := inputs[draw];
      var ds := Distances(calculator, ws, input);
      ArgMinIsMinimal(ds);
      assert forall j :: 0 <= j < |ws| ==> ds[j] == calculator.DistanceOf(ws[j], input);
      match ArgMin(ds)
      case None =>
      case Some(b) =>
        SweepOutcome(Round(calculator, cells, input, b, calculator.NeighbourhoodRadius(iteration, total), iteration, total), ws, 0);
    }
  }

  /**
    An iteration in which every cell lies inside the radius around every
    other and every cell has the same influence θ: when some weight is closer
    to the drawn input than double.MaxValue and all weights have the input's
    dimension, every weight becomes W + θ·L·(V − W) and the iteration succeeds.
   */
  lemma UniformIteration(calculator: Calculator, cells: seq<Cell>, inputs: seq<seq<real>>, draw: nat,
                         iteration: int, total: int, ws: seq<seq<real>>, theta: real)
    requires |ws| == |cells| && draw < |inputs|
    requires forall k :: 0 <= k < |ws| ==> |ws[k]| == |inputs[draw]|
    requires exists k :: 0 <= k < |ws| && calculator.DistanceOf(ws[k], inputs[draw]) < MaxDouble
    requires forall k, b :: 0 <= k < |cells| && 0 <= b < |cells| ==>
               calculator.MapDistanceOf(cells[k], cells[b]) < calculator.NeighbourhoodRadius(iteration, total)
    requires forall k, d, r :: 0 <= k < |cells| ==> calculator.Influence(cells[k], d, r) == theta
    ensures var e := Iteration(calculator, cells, inputs, draw, iteration, total, ws);
            && e.outcome == Pass
            && forall k :: 0 <= k < |ws| ==>
                 e.weights[k] == Adjusted(ws[k], inputs[draw], theta * calculator.LearningRate(iteration, total))
  {
    var input := inputs[draw];
    var ds := Distances(calculator, ws, input);
    ArgMinIsMinimal(ds);
    var j :| 0 <= j < |ws| && calculator.DistanceOf(ws[j], input) < MaxDouble;
    assert ds[j] < MaxDouble;
    var b := ArgMin(ds).value;
    var r := Round(calculator, cells, input, b, calculator.NeighbourhoodRadius(iteration, total), iteration, total);
    var f := theta * calculator.LearningRate(iteration, total);
    forall k | 0 <= k < |ws|
      ensures r.InRadius(k) && r.Factor(k) == f
    {
      assert calculator.Influence(cells[k], r.MapDistance(k), r.radius) == theta;
    }
    UniformSweep(r, ws, f);
  }

  /** A traversal in which every cell is inside the radius, has the input's dimension and has the same θ·L. */
  lemma UniformSweep(r: Round, ws: seq<seq<real>>, f: real)
    requires r.Valid() && |ws| == |r.cells|
    requires forall k :: 0 <= k < |ws| ==> r.InRadius(k) && |ws[k]| == |r.input| && r.Factor(k) == f
    ensures Sweep(r, ws, 0).outcome == Pass
    ensures forall k :: 0 <= k < |ws| ==> Sweep(r, ws, 0).weights[k] == Adjusted(ws[k], r.input, f)
  {
    SweepOutcome(r, ws, 0);
    forall k | 0 <= k < |ws|
      ensures Sweep(r, ws, 0).weights[k] == Adjusted(ws[k], r.input, f)
    {
      SweepAdjustsInside(r, ws, 0, k);
    }
  }

  /** Full strength over the whole map (θ = L = 1): one iteration copies the input into every weight. */
  lemma FullStrengthIterationCopiesInput(calculator: Calculator, cells: seq<Cell>, inputs: seq<seq<real>>, draw: nat,
                                         iteration: int, total: int, ws: seq<seq<real>>)
    requires |ws| == |cells| && draw < |inputs|
    requires forall k :: 0 <= k < |ws| ==> |ws[k]| == |inputs[draw]|
    requires exists k :: 0 <= k < |ws| && calculator.DistanceOf(ws[k], inputs[draw]) < MaxDouble
    requires forall k, b :: 0 <= k < |cells| && 0 <= b < |cells| ==>
               calculator.MapDistanceOf(cells[k], cells[b]) < calculator.NeighbourhoodRadius(iteration, total)
    requires forall k, d, r :: 0 <= k < |cells| ==> calculator.Influence(cells[k], d, r) == 1.0
    requires calculator.LearningRate(iteration, total) == 1.0
    ensures var e := Iteration(calculator, cells, inputs, draw, iteration, total, ws);
            e.outcome == Pass && forall k :: 0 <= k < |ws| ==> e.weights[k] == inputs[draw]
  {
    UniformIteration(calculator, cells, inputs, draw, iteration, total, ws, 1.0);
    forall k | 0 <= k < |ws|
      ensures Adjusted(ws[k], inputs[draw], 1.0 * 1.0) == inputs[draw]
    {
      FullFactorReachesInput(ws[k], inputs[draw]);
    }
  }

  /** From all-zero weights, a whole-map iteration with θ·L = f leaves every weight at f times the input. */
  lemma ZeroWeightsIterationScalesInput(calculator: Calculator, cells: seq<Cell>, inputs: seq<seq<real>>, draw: nat,
                                        iteration: int, total: int, ws: seq<seq<real>>, theta: real)
    requires |ws| == |cells| && draw < |inputs|
    requires forall k :: 0 <= k < |ws| ==> ws[k] == Repeat(0.0, |inputs[draw]|)
    requires exists k :: 0 <= k < |ws| && calculator.DistanceOf(ws[k], inputs[draw]) < MaxDouble
    requires forall k, b :: 0 <= k < |cells| && 0 <= b < |cells| ==>
               calculator.MapDistanceOf(cells[k], cells[b]) < calculator.NeighbourhoodRadius(iteration, total)
    requires forall k, d, r :: 0 <= k < |cells| ==> calculator.Influence(cells[k], d, r) == theta
    ensures var e := Iteration(calculator, cells, inputs, draw, iteration, total, ws);
            var f := theta * calculator.LearningRate(iteration, total);
            e.outcome == Pass &&
            forall k :: 0 <= k < |ws| ==> e.weights[k] == Pointwise(Times, inputs[draw], Repeat(f, |inputs[draw]|))
  {
    var v := inputs[draw];
    var f := theta * calculator.LearningRate(iteration, total);
    UniformIteration(calculator, cells, inputs, draw, iteration, total, ws, theta);
    forall k | 0 <= k < |ws|
      ensures Adjusted(ws[k], v, f) == Pointwise(Times, v, Repeat(f, |v|))
    {
      forall i | 0 <= i < |v|
        ensures Adjusted(ws[k], v, f)[i] == Pointwise(Times, v, Repeat(f, |v|))[i]
      {
        AdjustedAt(ws[k], v, f, i);
      }
    }
  }

  /** What the iterations of a call of Start are given, with the inputs and the random draws as values. */
  datatype Setup = Setup(calculator: Calculator, cellMap: Map, inputs: seq<seq<real>>, draws: seq<nat>, hasStep: bool)

  /** The weights, the callbacks made so far, and whether the run is still going. */
  datatype Progress = Progress(weights: seq<seq<real>>, trace: seq<Event>, outcome: Outcome)

  /** The first k iterations of a run of `total`, from the weights ws0. */
  function Run(s: Setup, total: int, ws0: seq<seq<real>>, k: nat): (p: Progress)
    requires |ws0| == |s.cellMap.cells| && k <= |s.draws|
    ensures |p.weights| == |ws0|
    decreases k, 1
  {
    if k == 0 then Progress(ws0, [], Pass) else Continue(s, total, ws0, k)
  }

  /**
    Iteration k after the first k − 1: a failed iteration ends the run;
    otherwise the step callback sees the current weights, then the iteration
    updates them.
   */
  function Continue(s: Setup, total: int, ws0: seq<seq<real>>, k: nat): (p: Progress)
    requires |ws0| == |s.cellMap.cells| && 0 < k <= |s.draws|
    ensures |p.weights| == |ws0|
    decreases k, 0
  {
    var p := Run(s, total, ws0, k - 1);
    if p.outcome.Fail? then p
    else
      var trace := p.trace + if s.hasStep then [Step(s.cellMap, p.weights)] else [];
      var e := Iteration(s.calculator, s.cellMap.cells, s.inputs, s.draws[k - 1], k, total, p.weights);
      Progress(e.weights, trace, e.outcome)
  }

  /** A whole call of Start: validation, the iterations, then the completion callback. */
  function StartSpec(s: Setup, hasDone: bool, iterations: int, ws0: seq<seq<real>>): Progress
    requires |ws0| == |s.cellMap.cells| && iterations <= |s.draws|
  {
    if iterations <= 0 then Progress(ws0, [], Fail(InvalidIterationCount))
    else
      var p := Run(s, iterations, ws0, iterations);
      if p.outcome.Pass? && hasDone then Progress(p.weights, p.trace + [Complete(s.cellMap)], Pass)
      else p
  }

  /** The iteration after the first k of a run that has gone well so far: the step callback, then one Iteration on the current weights. */
  lemma RunNext(s: Setup, total: int, ws0: seq<seq<real>>, k: nat)
    requires |ws0| == |s.cellMap.cells| && k < |s.draws|
    requires Run(s, total, ws0, k).outcome.Pass?
    ensures var p := Run(s, total, ws0, k);
            var e := Iteration(s.calculator, s.cellMap.cells, s.inputs, s.draws[k], k + 1, total, p.weights);
            Run(s, total, ws0, k + 1) ==
            Progress(e.weights, p.trace + (if s.hasStep then [Step(s.cellMap, p.weights)] else []), e.outcome)
  {
  }

  /** Once an iteration fails, later iterations change nothing. */
  lemma {:induction false} RunFailureIsFinal(s: Setup, total: int, ws0: seq<seq<real>>, k: nat, n: nat)
    requires |ws0| == |s.cellMap.cells| && k <= n <= |s.draws|
    requires Run(s, total, ws0, k).outcome.Fail?
    ensures Run(s, total, ws0, n) == Run(s, total, ws0, k)
    decreases n - k
  {
    if k < n {
      RunFailureIsFinal(s, total, ws0, k, n - 1);
    }
  }

  /**
    While a run goes well, the step callback has run once per iteration, and
    the j-th call (counting from 0) saw the weights left by the first j
    iterations: it fires before its own iteration's update.
   */
  lemma {:induction false} RunSteps(s: Setup, total: int, ws0: seq<seq<real>>, k: nat)
    requires |ws0| == |s.cellMap.cells| && k <= |s.draws|
    requires Run(s, total, ws0, k).outcome.Pass?
    ensures var trace := Run(s, total, ws0, k).trace;
            |trace| == (if s.hasStep then k else 0) &&
            forall j :: 0 <= j < |trace| ==> trace[j] == Step(s.cellMap, Run(s, total, ws0, j).weights)
  {
    if k > 0 {
      RunSteps(s, total, ws0, k - 1);
    }
  }

  /** What the random source can yield for a collection of `count` inputs: an index below the count, and 0 when it is empty. */
  predicate DrawsInRange(draws: seq<nat>, count: nat)
  {
    forall k :: 0 <= k < |draws| ==> if count == 0 then draws[k] == 0 else draws[k] < count
  }

  /** With inputs to choose from and draws the random source can yield, no iteration of a run fails in Choice. */
  lemma {:induction false} DrawsInRangeNeverFailChoice(s: Setup, total: int, ws0: seq<seq<real>>, k: nat)
    requires |ws0| == |s.cellMap.cells| && k <= |s.draws|
    requires s.inputs != [] && DrawsInRange(s.draws, |s.inputs|)
    ensures Run(s, total, ws0, k).outcome != Fail(IndexOutOfRange)
  {
    if k > 0 {
      DrawsInRangeNeverFailChoice(s, total, ws0, k - 1);
      var p := Run(s, total, ws0, k - 1);
      if p.outcome.Pass? {
        RunNext(s, total, ws0, k - 1);
        IterationOutcome(s.calculator, s.cellMap.cells, s.inputs, s.draws[k - 1], k, total, p.weights);
      }
    }
  }

  /**
    A successful Start of N iterations calls the step callback exactly N times
    (when given one), each with the live map, and the completion callback once,
    last, with the live map (when given one).
   */
  lemma StartCallbacks(s: Setup, hasDone: bool, iterations: int, ws0: seq<seq<real>>)
    requires |ws0| == |s.cellMap.cells| && 0 < iterations <= |s.draws|
    requires StartSpec(s, hasDone, iterations, ws0).outcome.Pass?
    ensures var trace := StartSpec(s, hasDone, iterations, ws0).trace;
            var steps := if s.hasStep then iterations else 0;
            |trace| == steps + (if hasDone then 1 else 0) &&
            (forall j :: 0 <= j < steps ==> trace[j] == Step(s.cellMap, Run(s, iterations, ws0, j).weights)) &&
            (hasDone ==> trace[|trace| - 1] == Complete(s.cellMap))
  {
    RunSteps(s, iterations, ws0, iterations);
  }

  /**
    No emptiness check: with no inputs the first iteration fails when it picks
    its input, after the first step callback and before any weight changes.
   */
  lemma EmptyInputsFailAtFirstIteration(s: Setup, hasDone: bool, iterations: int, ws0: seq<seq<real>>)
    requires |ws0| == |s.cellMap.cells| && 0 < iterations <= |s.draws| && s.inputs == []
    ensures StartSpec(s, hasDone, iterations, ws0) ==
            Progress(ws0, if s.hasStep then [Step(s.cellMap, ws0)] else [], Fail(IndexOutOfRange))
  {
    assert Run(s, iterations, ws0, 1).outcome.Fail?;
    RunFailureIsFinal(s, iterations, ws0, 1, iterations);
  }

  class Trainer {
    /** m_Map */
    const cellMap: Map
    /** m_Calculator */
    const calculator: Calculator
    /** m_Inputs: the inputs of the current run. */
    var inputs: seq<Vector>
    /** m_TotalIterations */
    var totalIterations: int

    constructor(cellMap: Map, calculator: Calculator)
      ensures this.cellMap == cellMap && this.calculator == calculator
      ensures inputs == [] && totalIterations == 0
    {
      this.cellMap := cellMap;
      this.calculator := calculator;
      inputs := [];
      totalIterations := 0;
    }

    /**
      What the model needs of the object graph: no weight vector is shared
      between two map positions, and no input is a cell's weight vector.
     */
    ghost predicate Ready()
      reads this
    {
      cellMap.Unshared() && forall k :: 0 <= k < |inputs| ==> inputs[k] !in cellMap.WeightVectors()
    }

    /** Start: validates the iteration count, then runs iterations 1..N, then reports completion. */
    method Start(inputs: seq<Vector>, iterations: int, draws: seq<nat>, hasDone: bool, hasStep: bool)
      returns (o: Outcome, trace: seq<Event>)
      requires cellMap.Unshared()
      requires forall k :: 0 <= k < |inputs| ==> inputs[k] !in cellMap.WeightVectors()
      requires iterations <= |draws| && DrawsInRange(draws, |inputs|)
      modifies this, cellMap.WeightVectors()
      ensures iterations <= 0 ==> unchanged(this) && unchanged(cellMap.WeightVectors())
      ensures iterations > 0 ==> this.inputs == inputs && totalIterations == iterations
      ensures Progress(cellMap.Weights(), trace, o) ==
              StartSpec(Setup(calculator, cellMap, old(Contents(inputs)), draws, hasStep), hasDone, iterations, old(cellMap.Weights()))
    {
      if iterations <= 0 {
        return Fail(InvalidIterationCount), [];
      }
      totalIterations := iterations;
      this.inputs := inputs;
      o, trace := Iterate(draws, hasStep, Setup(calculator, cellMap, Contents(inputs), draws, hasStep), cellMap.Weights());
      if o.Pass? && hasDone {
        trace := trace + [Complete(cellMap)];
      }
    }

    /**
      Start's loop: iterations 1..N, each preceded by the step callback (when
      given one); an iteration that fails ends the run with its failure.
     */
    method Iterate(draws: seq<nat>, hasStep: bool, ghost setup: Setup, ghost ws0: seq<seq<real>>)
      returns (o: Outcome, trace: seq<Event>)
      requires Ready() && 0 < totalIterations <= |draws|
      requires setup == Setup(calculator, cellMap, Contents(inputs), draws, hasStep)
      requires ws0 == cellMap.Weights()
      modifies cellMap.WeightVectors()
      ensures Progress(cellMap.Weights(), trace, o) == Run(setup, totalIterations, ws0, totalIterations)
    {
      o, trace := Pass, [];
      for done := 0 to totalIterations
        invariant Contents(inputs) == setup.inputs
        invariant o == Pass && Run(setup, totalIterations, ws0, done) == Progress(cellMap.Weights(), trace, o)
      {
        o, trace := Advance(done, draws, hasStep, trace, setup, ws0);
        if o.Fail? {
          RunFailureIsFinal(setup, totalIterations, ws0, done + 1, totalIterations);
          return;
        }
      }
    }

    /** The body of Start's loop after `done` iterations: the step callback (when given one), then iteration done + 1. */
    method Advance(done: nat, draws: seq<nat>, hasStep: bool, before: seq<Event>, ghost setup: Setup, ghost ws0: seq<seq<real>>)
      returns (o: Outcome, trace: seq<Event>)
      requires Ready() && done < |draws| && |ws0| == |cellMap.cells|
      requires setup == Setup(calculator, cellMap, Contents(inputs), draws, hasStep)
      requires Run(setup, totalIterations, ws0, done) == Progress(cellMap.Weights(), before, Pass)
      modifies cellMap.WeightVectors()
      ensures Contents(inputs) == old(Contents(inputs))
      ensures Run(setup, totalIterations, ws0, done + 1) == Progress(cellMap.Weights(), trace, o)
    {
      trace := before;
      if hasStep {
        trace := trace + [Step(cellMap, cellMap.Weights())];
      }
      o := ApplyInput(done + 1, draws[done]);
      RunNext(setup, totalIterations, ws0, done);
    }

    /** ApplyInput: one iteration, with `draw` the index the random source yields. */
    method ApplyInput(iteration: int, draw: nat) returns (o: Outcome)
      requires Ready()
      modifies cellMap.WeightVectors()
      ensures Contents(inputs) == old(Contents(inputs))
      ensures Effect(cellMap.Weights(), o) ==
              Iteration(calculator, cellMap.cells, Contents(inputs), draw, iteration, totalIterations, old(cellMap.Weights()))
    {
      var chosen := Choice(draw);
      if chosen.Err? {
        return Fail(chosen.error);
      }
      var input := chosen.value;
      var found := FindBMU(input);
      if found.None? {
        return Fail(BmuNotFound);  // the debug assertion that a BMU was found
      }
      var bmu := found.value;
      var radius := calculator.NeighbourhoodRadius(iteration, totalIterations);
      label Chosen:
      o := AdjustNeighbourhood(input, bmu, radius, iteration);
      ContentsKept@Chosen(inputs);
    }

    /**
      The action ApplyInput hands to ForEachCell: in traversal order, every
      cell strictly inside the radius around the BMU is pulled toward the
      input; a dimension mismatch stops the traversal where it is.
     */
    method AdjustNeighbourhood(input: Vector, bmu: nat, radius: real, iteration: int) returns (o: Outcome)
      requires cellMap.Unshared() && input !in cellMap.WeightVectors() && bmu < |cellMap.cells|
      modifies cellMap.WeightVectors()
      ensures input.elems == old(input.elems)
      ensures Effect(cellMap.Weights(), o) ==
              Sweep(Round(calculator, cellMap.cells, input.elems, bmu, radius, iteration, totalIterations), old(cellMap.Weights()), 0)
    {
      ghost var round := Round(calculator, cellMap.cells, input.elems, bmu, radius, iteration, totalIterations);
      ghost var ws0 := cellMap.Weights();
      var cells := cellMap.ForEachCell(true);
      for j := 0 to |cells|
        invariant input.elems == round.input
        invariant Sweep(round, ws0, 0) == Sweep(round, cellMap.Weights(), j)
      {
        ghost var before := cellMap.Weights();
        var distance := calculator.MapDistanceOf(cells[j], cells[bmu]);
        assert distance == round.MapDistance(j);
        if distance < radius {
          assert round.Factor(j) == UpdateFactor(calculator, cells[j], distance, radius, iteration, totalIterations);
          label Visit:
          o := AdjustCellWeight(cells[j], input, distance, radius, iteration);
          cellMap.OnlyOneWeightChanged@Visit(j);
          if o.Fail? {
            assert cellMap.Weights() == before[j := before[j]] == before;
            assert Sweep(round, before, j) == Effect(before, o);
            return;
          }
          assert |before[j]| == |round.input|;
          ghost var adjusted := Adjusted(before[j], round.input, round.Factor(j));
          assert cells[j].weight.elems == adjusted;
          assert cellMap.Weights() == before[j := adjusted];
          assert Sweep(round, before, j) == Sweep(round, cellMap.Weights(), j + 1);
        } else {
          assert Sweep(round, before, j) == Sweep(round, before, j + 1);
        }
      }
      return Pass;
    }

    /** Choice: the input at the drawn index; an index past the end (any index, for no inputs) fails. */
    method Choice(draw: nat) returns (r: Result<Vector>)
      ensures r.Ok? <==> draw < |inputs|
      ensures r.Ok? ==> r.value == inputs[draw]
      ensures r.Err? ==> r.error == IndexOutOfRange
    {
      if draw >= |inputs| {
        return Err(IndexOutOfRange);
      }
      return Ok(inputs[draw]);
    }

    /** FindBMU: the first cell, in traversal order, whose weight is strictly closest to the input. */
    method FindBMU(input: Vector) returns (bmu: Option<nat>)
      ensures bmu == ArgMin(Distances(calculator, cellMap.Weights(), input.elems))
    {
      ghost var ds := Distances(calculator, cellMap.Weights(), input.elems);
      var cells := cellMap.ForEachCell(true);
      assert ds == Distances(calculator, cellMap.Weights(), input.elems);
      var minDistance := MaxDouble;
      bmu := None;
      for j := 0 to |cells|
        invariant bmu == ArgMin(ds[..j])
        invariant minDistance == if bmu.None? then MaxDouble else ds[bmu.value]
      {
        var d := calculator.DistanceOf(cells[j].weight.elems, input.elems);
        assert ds[..j + 1][..j] == ds[..j];
        if d < minDistance {
          minDistance := d;
          bmu := Some(j);
        }
      }
      assert ds[..|cells|] == ds;
    }

    /** AjustCellWeight: W := W + θ·L·(V − W) on the cell's own weight vector; the input is not modified. */
    method AdjustCellWeight(cell: Cell, input: Vector, distance: real, radius: real, iteration: int)
      returns (o: Outcome)
      modifies cell.weight
      ensures o == if old(input.Dimension()) == old(cell.weight.Dimension()) then Pass else Fail(DimensionMismatch)
      ensures cell.weight.elems ==
              if o.Fail? then old(cell.weight.elems)
              else Adjusted(old(cell.weight.elems), old(input.elems), UpdateFactor(calculator, cell, distance, radius, iteration, totalIterations))
      ensures input.elems == old(input.elems)
    {
      var w := cell.weight;
      ghost var w0, v0 := w.elems, input.elems;
      var factor := UpdateFactor(calculator, cell, distance, radius, iteration, totalIterations);
      var diff := Vector.Difference(input, w);
      if diff.Err? {
        return Fail(diff.error);
      }
      var scaled := diff.value.Multiply(factor);
      var _ := w.Add(scaled);
      AdjustedByVectorOperations(w0, v0, factor);
      if input == w {
        AdjustedTowardItself(w0, factor);
      }
      return Pass;
    }
  }
}
