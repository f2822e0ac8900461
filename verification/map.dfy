/**
  The map: a fixed collection of cells, kept exactly as the caller built it,
  with one traversal in storage order.
 */
module Maps {
  import opened Vectors
  import opened Cells

  class Map {
    /**
      The cells (m_Cells), as one fixed sequence: the map itself has no
      operation that adds or removes a cell.
     */
    const cells: seq<Cell>

    constructor(cells: seq<Cell>)
      ensures this.cells == cells
    {
      this.cells := cells;
    }

    /**
      ForEachCell: the cells the action is applied to, in the order it is
      applied to them. A null action is applied to none. The traversal itself
      changes nothing; whatever changes is the action's doing.
     */
    method ForEachCell(hasAction: bool) returns (visited: seq<Cell>)
      ensures visited == if hasAction then cells else []
    {
      visited := [];
      if !hasAction {
        return;
      }
      for i := 0 to |cells|
        invariant visited == cells[..i]
      {
        visited := visited + [cells[i]];
      }
    }

    /** The weight vectors of the cells: everything training may change. */
    function WeightVectors(): (vs: seq<Vector>)
      ensures |vs| == |cells|
      ensures forall j :: 0 <= j < |cells| ==> vs[j] == cells[j].weight
    {
      seq(|cells|, j requires 0 <= j < |cells| => cells[j].weight)
    }

    /** The cells' weights, in traversal order. */
    function Weights(): (ws: seq<seq<real>>)
      reads WeightVectors()
      ensures |ws| == |cells|
    {
      seq(|cells|, j requires 0 <= j < |cells| reads WeightVectors() => cells[j].weight.elems)
    }

    /** No two positions of the map hold the same weight vector (so no cell appears twice either). */
    predicate Unshared()
    {
      forall i, j :: 0 <= i < j < |cells| ==> cells[i].weight != cells[j].weight
    }

    /** When only the weight vector at position j may have changed, only position j of the weights may differ. */
    twostate lemma OnlyOneWeightChanged(j: nat)
      requires Unshared() && j < |cells|
      requires forall k :: 0 <= k < |cells| && cells[k].weight != cells[j].weight ==> unchanged(cells[k].weight)
      ensures Weights() == old(Weights())[j := cells[j].weight.elems]
    {
      forall k | 0 <= k < |cells| && k != j
        ensures cells[k].weight != cells[j].weight
      {
        if k < j {
          assert cells[k].weight != cells[j].weight;
        }
      }
    }
  }
}
