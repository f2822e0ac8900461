# Self-Organizing Map training core, modelled in Dafny

This project models the training core of a small C# Self-Organizing Map
library (namespace `FeatureGraph.SOM`). It covers the following parts:

- **Vector**: a mutable list of numbers. It has a bounds-checked indexer,
  destructive `Add`/`Subtract`/`Multiply`/`Divide` that update the receiver
  in place, static versions that build a fresh vector, and a structural
  `Equals`.
- **Cell**: a weight vector, held by reference, plus a bag of named
  attributes.
- **Map**: a fixed collection of cells with one ordered traversal.
- **Calculator**: the caller-supplied strategy of five functions.
- **Trainer**: the training loop. Each of N iterations does the following:
  1. it calls the step callback;
  2. it picks an input;
  3. it finds the best-matching unit (BMU), which is the first strict
     minimum of `DistanceOf` in traversal order;
  4. it computes the neighbourhood radius once;
  5. it moves every cell strictly inside the radius toward the input,
     `W := W + θ·L·(V − W)`, in place.

  The completion callback runs once at the end.

The imperative parts are classes whose methods change fields in place:
`Vector.elems`, `Cell.aux`, and `Trainer.inputs`/`totalIterations`. Each
method is proved against a specification function on values:

- `Pointwise` specifies the vector operations.
- `Compare` specifies `Vector.Equals`, and `CellCompare` specifies `Cell.Equals`.
- `ArgMin` over `Distances` specifies the BMU search.
- `Adjusted` specifies one cell update.
- `Sweep` specifies the update traversal of one iteration.
- `Iteration` specifies one `ApplyInput`.
- `Run` and `StartSpec` specify `Start`.

The lemmas then state what the source promises about those functions:

- the tie-break of the BMU search;
- the frame of the traversal;
- that the update moves weights toward the input and never past it;
- the callback counts and their order.

Exceptions become values. Operations that produce something return
`Result`; operations that only change state return `Outcome`. The error
kinds are `IndexOutOfRange`, `DimensionMismatch`, `KeyNotFound`,
`InvalidIterationCount` and `BmuNotFound`.

The random choice of an input is a parameter. `Start` takes `draws`, the
index the random source yields at each iteration. Callbacks are recorded as
an event trace: `Step(map, weights seen)` and `Complete(map)`.

Files:

- `outcomes.dfy`: the error and result types.
- `vector.dfy`: module `Vectors`.
- `cell.dfy`: module `Cells`.
- `map.dfy`: module `Maps`.
- `calculator.dfy`: module `Calculators`.
- `trainer.dfy`: module `Training`.

## Model

| member | source | states |
|---|---|---|
| Vectors.Vector.FromSeq | Vector.cs:21-31 | the new vector holds exactly the given numbers, in order |
| Vectors.Vector.Random | Vector.cs:38-44 | the new vector has exactly `dimension` components, each in [0, 1) |
| Vectors.Vector.Dimension | Vector.cs:49-51 | the dimension is the number of components; no operation of the class changes it |
| Vectors.Repeat | Vector.cs:217-224 | `SameNumbers`: exactly `n` copies of the number |
| Vectors.Vector.Get | Vector.cs:58-65 | a read succeeds exactly for an index in [0, Dimension) and yields that component; any other index is IndexOutOfRange |
| Vectors.Vector.Set | Vector.cs:67-73 | an in-range write replaces that component only and keeps the dimension; an out-of-range index fails with IndexOutOfRange and changes nothing |
| Vectors.Vector.ForEach | Vector.cs:80-88 | the action is applied to every component once, in order; a null action is applied to none |
| Vectors.Vector.Add | Vector.cs:95-105 | on a dimension mismatch: DimensionMismatch, with the receiver unchanged; otherwise each component becomes `this[i] + that[i]`, the receiver itself is returned, and a distinct `that` is unchanged |
| Vectors.Vector.Subtract | Vector.cs:112-122 | the same as Add, with `this[i] − that[i]`; a mismatch fails before any component changes |
| Vectors.Vector.Multiply | Vector.cs:129-134 | every component is scaled by `m` in place; the dimension is kept and the receiver is returned |
| Vectors.Vector.Divide | Vector.cs:142-147 | every component is divided by `d` in place; the dimension is kept and the receiver is returned |
| Vectors.Vector.Sum | Vector.cs:155-160 | on a dimension mismatch: DimensionMismatch; otherwise a fresh vector with `left[i] + right[i]`, and neither operand changes |
| Vectors.Vector.Difference | Vector.cs:168-173 | on a dimension mismatch: DimensionMismatch; otherwise a fresh vector with `left[i] − right[i]`, and neither operand changes |
| Vectors.Vector.Product | Vector.cs:181-183 | a fresh vector with `v[i]·m`; the operand is unchanged |
| Vectors.Vector.Quotient | Vector.cs:192-194 | a fresh vector with `v[i]/d`; the operand is unchanged |
| Vectors.Vector.DoArithmetic | Vector.cs:203-209 | a fresh vector of the left operand's dimension holding `op(left[i], right[i])` at every index |
| Vectors.Vector.Equals | Vector.cs:237-249 | null is unequal; otherwise the answer compares the components at the receiver's indices only (`Compare`) |
| Vectors.CompareReflexive | Vector.cs:237-249 | every vector equals itself |
| Vectors.CompareIgnoresLongerArgument | Vector.cs:237-249 | an argument that extends the receiver with extra components is "equal": the dimensions are never compared |
| Vectors.CompareShorterArgumentFails | Vector.cs:237-249 | with the operands swapped, the walk reads past the shorter argument and fails with IndexOutOfRange, so Equals is not symmetric |
| Vectors.SubtractUndoesAdd | Vector.cs:95-122 | in the real-number model only: subtracting what was added restores the original components (doubles do not satisfy this) |
| Vectors.DivideUndoesMultiply | Vector.cs:129-147 | in the real-number model only: dividing by a non-zero factor undoes multiplying by it |
| Cells.Cell.constructor | Cell.cs:16-19 | the cell keeps the given vector itself (the same reference) and has no attributes |
| Cells.Cell.Get | Cell.cs:30-37 | reading a key succeeds exactly when it was set and yields its value; a key never set fails with KeyNotFound |
| Cells.Cell.Set | Cell.cs:39-45 | the key is inserted or overwritten; reading it gives the new value; every other key keeps its value; the key set only grows |
| Cells.Cell.Equals | Cell.cs:48-65 | null is unequal; a weight comparison that fails makes Equals fail; otherwise the answer is: equal weights, and every attribute of the receiver present with an equal value in the argument |
| Cells.CellCompareNotSymmetric | Cell.cs:48-65 | extra attributes in the argument are not checked: a cell without attributes equals one with an attribute, but not the reverse |
| Maps.Map.constructor | Map.cs:12-14 | the map holds the given cells, in the given order, and has no operation that adds or removes one (as a fixed sequence: see Left out) |
| Maps.Map.ForEachCell | Map.cs:20-27 | the action is applied once to each cell, in storage order; a null action is applied to none; the traversal changes nothing |
| Calculators.Calculator | Calculator.cs:11-55 | the strategy: five caller-supplied functions, with MapDistanceOf and Influence given cells (not weights) and the radius and learning rate given the iteration and the total |
| Calculators.Documented | Calculator.cs:30-54 | the documented ranges: influence and learning rate in [0, 1], and a radius that does not grow as the iteration number grows |
| Calculators.NeighbourhoodNeverGrows | Calculator.cs:30-37 | under the documented ranges, two cells inside the radius of a later iteration were inside the radius of every earlier one |
| Calculators.DocumentedFactorInUnitInterval | Calculator.cs:39-54 | with an influence and a learning rate in [0, 1], as documented, their product θ·L lies in [0, 1] |
| Training.ArgMinIsMinimal | Trainer.cs:125-137 | a BMU found has a distance below double.MaxValue, no greater than any cell's, and strictly below every earlier cell's; none is found exactly when no distance is below double.MaxValue |
| Training.ArgMinIsTheFirstMinimum | Trainer.cs:125-134 | among equally close cells the search settles on the first in traversal order |
| Training.AdjustedAt | Trainer.cs:147-161 | component i of an adjusted weight is `w[i] + (v[i] − w[i])·θ·L` |
| Training.AdjustedByVectorOperations | Trainer.cs:157-161 | Subtract(input, w), then Multiply by θ·L, then Add into w, computes `W + θ·L·(V − W)` |
| Training.AdjustedStaysBetween | Trainer.cs:147-162 | with θ·L in [0, 1], every adjusted component lies between the old component and the input's |
| Training.FullFactorReachesInput | Trainer.cs:147-162 | with θ·L = 1 the weight becomes the input |
| Training.AdjustedTowardItself | Trainer.cs:157-161 | pulling a weight toward itself (the input is the weight vector itself) leaves it unchanged |
| Training.SweepOutcome | Trainer.cs:102-108 | the traversal succeeds exactly when every cell inside the radius has the input's dimension; otherwise it fails with DimensionMismatch |
| Training.SweepKeepsOutside | Trainer.cs:102-108 | cells at or beyond the radius, and cells before the starting point, keep their weights |
| Training.SweepAdjustsInside | Trainer.cs:102-108 | a cell strictly inside the radius is adjusted once, with its own θ·L, provided that no cell inside the radius up to it has a mismatching dimension; so the cells adjusted before a later mismatch keep their update (no rollback) |
| Training.SweepStopsAtMismatch | Trainer.cs:102-108 | after a mismatching cell inside the radius, neither it nor any later cell changes |
| Training.SweepMovesTowardInput | Trainer.cs:102-108 | under the documented calculator ranges, every component of every weight moves toward the input and never past it |
| Training.IterationOutcome | Trainer.cs:97-137 | an iteration fails in Choice exactly when the draw is past the last input, fails the BMU assertion exactly when no weight is closer to the drawn input than double.MaxValue, and otherwise can only fail with DimensionMismatch |
| Training.UniformSweep | Trainer.cs:102-108 | when every cell is inside the radius, has the input's dimension and has the same θ·L, the traversal succeeds and adjusts every cell with that factor |
| Training.UniformIteration | Trainer.cs:97-108 | an iteration whose radius covers the whole map, with a uniform influence, adjusts every weight by the same θ·L and succeeds |
| Training.FullStrengthIterationCopiesInput | Trainer.cs:97-108 | with θ = L = 1 and the whole map inside the radius, one iteration sets every weight to the input |
| Training.ZeroWeightsIterationScalesInput | Trainer.cs:97-108 | from all-zero weights, a whole-map iteration with θ·L = f sets every weight to f times the input |
| Training.Event | Trainer.cs:16-43 | a callback invocation: TrainStepArgs and TrainCompleteArgs each carry the live map (the step event also records the weights visible at that moment) |
| Training.DrawsInRangeNeverFailChoice | Trainer.cs:115-118 | with at least one input and draws in the range `Random.Next(count)` yields, no iteration of a run fails in Choice |
| Training.RunFailureIsFinal | Trainer.cs:81-86 | once an iteration fails, the run stops: later iterations change neither the weights nor the trace |
| Training.RunSteps | Trainer.cs:81-86 | while the run goes well, the step callback has fired once per iteration, before that iteration's update, seeing the weights left by the earlier iterations |
| Training.StartCallbacks | Trainer.cs:81-90 | a successful Start of N iterations calls the step callback N times with the live map, and the completion callback once, last, with the live map |
| Training.EmptyInputsFailAtFirstIteration | Trainer.cs:115-118 | with no inputs, the first iteration fails in Choice with IndexOutOfRange, after the first step callback and before any weight changes |
| Training.Trainer.constructor | Trainer.cs:62-65 | the trainer keeps the given map and calculator |
| Training.Trainer.Start | Trainer.cs:74-91 | given draws in the range of `Random.Next(count)`: `iterations <= 0` fails with InvalidIterationCount before any field, weight or callback; otherwise the fields are set, and the weights, the trace and the outcome are those of `StartSpec` |
| Training.Trainer.Iterate | Trainer.cs:81-86 | the counted loop leaves the weights, trace and outcome of `Run` over iterations 1..N; the inputs are not modified |
| Training.Trainer.Advance | Trainer.cs:82-85 | one pass of the loop body, the step callback then ApplyInput, takes the run from `done` iterations to `done + 1` |
| Training.Trainer.ApplyInput | Trainer.cs:97-109 | the weights and outcome are those of `Iteration`: the input and BMU are chosen on the weights before the iteration, the radius is computed once, then the traversal runs; the inputs are not modified |
| Training.Trainer.AdjustNeighbourhood | Trainer.cs:102-108 | the in-place traversal leaves exactly the weights and outcome of `Sweep`, and the input is not modified |
| Training.Trainer.Choice | Trainer.cs:115-118 | the input at the drawn index; an index outside the inputs fails with IndexOutOfRange |
| Training.Trainer.FindBMU | Trainer.cs:125-137 | the accumulator loop returns `ArgMin` of the distances from the current weights to the input |
| Training.Trainer.AdjustCellWeight | Trainer.cs:147-162 | on a dimension mismatch: DimensionMismatch, with the weight unchanged; otherwise the cell's weight becomes `W + θ·L·(V − W)` in place, and the input is not modified |

## Left out

- Numbers are mathematical reals, not IEEE doubles. NaN, infinities and rounding are not modelled. double.MaxValue appears as its exact real value, where FindBMU uses it as the starting minimum.
- Vectors.Vector.Divide: requires `d != 0`. The source does not check it, and division by zero yields infinities or NaN, which reals cannot represent.
- Vectors.Vector.Quotient: requires `d != 0`, for the same reason.
- Vectors.Vector.DoArithmetic: requires the right operand to be at least as long as the left. Every caller in the class guarantees this, and the helper is private.
- Vectors.Vector.Random: the random source is a nondeterministic choice in [0, 1).
- Vectors.Vector.Random: `Debug.Assert(dimension > 0)` is not modelled. It is compiled out of release builds, and the static operations reach it with dimension 0.
- `GetHashCode` of Vector and Cell is not modelled. It depends on truncating casts of doubles, .NET string hashes and dictionary enumeration order.
- The `dynamic` attribute values of a cell are a tagged datatype `Value`, compared by value equality.
- The callbacks are not arbitrary code. They are recorded as a trace of `Step`/`Complete` events, so a callback that throws, changes the map or calls back into the trainer is not modelled.
- The calculator is a value holding five pure, total functions. A calculator that throws or keeps state is not modelled. Its documented ranges are an explicit hypothesis (`Documented`) of the lemmas that need them.
- The input collection is taken as a sequence of vector references, and Choice reads it once per iteration. Re-enumeration of a lazy `IEnumerable` is not modelled.
- The static `Random` of the trainer is the `draws` parameter of Start, one index per iteration. Start requires every draw to be what `Random.Next(count)` can yield: an index below the number of inputs, or 0 when there are none (`DrawsInRange`).
- Training.Trainer.Start: requires that no weight vector is shared between two cells and that no input is a cell's weight vector. Runs over such aliased object graphs are not covered.
- Training.Trainer.Start: iteration counts are unbounded integers. The 32-bit wrap-around of the loop counter when `iterations` is int.MaxValue is not modelled.
- Training.Trainer.FindBMU: `Debug.Assert(bmu != null)` is modelled as the error BmuNotFound, which ends the run (the debug-build behaviour). In a release build the assertion does nothing. For an empty map, the traversal then visits no cell, so every iteration succeeds without changing anything and the completion callback fires. For a non-empty map whose distances are all at least double.MaxValue, the null BMU is handed to the calculator's MapDistanceOf, which is outside the model.
- Maps.Map.constructor: the map holds its cells as one fixed sequence. The source keeps the caller's `IEnumerable<Cell>` by reference and enumerates it again on every traversal. Later changes the caller makes to that collection, and a lazy enumerable that yields different cells on each enumeration, are therefore not modelled. In the model, FindBMU and the update traversal of one iteration always see the same cells.
- Map.ForEachCell returns the order in which it applies the action. The two lambdas that the trainer hands it are the bodies of loops over that order.
- The concrete colour calculator and the JSON export (Color/ColorSOM.cs, Color/ColorMapJSON.cs) are not part of this model.
- Start does not check for an empty input collection (Trainer.cs:74-86). With no inputs, the first iteration fails in Choice, after the first step callback (`EmptyInputsFailAtFirstIteration`).
