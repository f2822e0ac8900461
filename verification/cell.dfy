/**
  One node of the map: a weight vector, held by reference, and a bag of
  named attributes (grid coordinates and other metadata) that only ever
  grows.
 */
module Cells {
  import opened Outcomes
  import opened Vectors

  /** The runtime-typed attribute values, as a tagged variant. */
  datatype Value = Integer(i: int) | Number(n: real) | Text(s: string) | Flag(b: bool)

  /** Every key of `mine` is present in `theirs` with an equal value; extra keys in `theirs` are allowed. */
  predicate Included(mine: map<string, Value>, theirs: map<string, Value>)
  {
    forall k :: k in mine ==> k in theirs && mine[k] == theirs[k]
  }

  /**
    What `Cell.Equals` answers: the weights are compared first (and may fail
    the way `Vector.Equals` does); equal weights leave the answer to whether
    the receiver's attributes are included in the argument's.
   */
  function CellCompare(w: seq<real>, aux: map<string, Value>, w': seq<real>, aux': map<string, Value>): Result<bool>
  {
    match Compare(w, w')
    case Err(e) => Err(e)
    case Ok(same) => Ok(same && Included(aux, aux'))
  }

  /** Attribute inclusion is not symmetric: a cell with no attributes matches one with some, not the reverse. */
  lemma CellCompareNotSymmetric(w: seq<real>, key: string, v: Value)
    ensures CellCompare(w, map[], w, map[key := v]) == Ok(true)
    ensures CellCompare(w, map[key := v], w, map[]) == Ok(false)
  {
    CompareReflexive(w);
    var one: map<string, Value> := map[key := v];
    assert key in one && !Included(one, map[]);
  }

  class Cell {
    /** The weight vector (m_Weight), never replaced; `Weight` hands out this very reference. */
    const weight: Vector
    /** The attributes (m_AuxData). */
    var aux: map<string, Value>

    /** A new cell keeps the given vector itself, not a copy, and has no attributes. */
    constructor(weight: Vector)
      ensures this.weight == weight && aux == map[]
    {
      this.weight := weight;
      aux := map[];
    }

    /** The indexer's getter: a key that was never set is an error, never a default. */
    function Get(key: string): (r: Result<Value>)
      reads this
      ensures r.Ok? <==> key in aux
      ensures r.Ok? ==> r.value == aux[key]
      ensures r.Err? ==> r.error == KeyNotFound
    {
      if key in aux then Ok(aux[key]) else Err(KeyNotFound)
    }

    /** The indexer's setter: overwrites a present key, inserts an absent one. */
    method Set(key: string, value: Value)
      modifies this
      ensures aux == old(aux)[key := value]
      ensures aux.Keys == old(aux.Keys) + {key}
      ensures Get(key) == Ok(value)
      ensures forall k :: k != key ==> Get(k) == old(Get(k))
    {
      // a map update overwrites a present key and inserts an absent one
      aux := aux[key := value];
    }

    /**
      Equals: false for null; otherwise the weights must be equal and every
      attribute of this cell must be present, with an equal value, in `that`.
     */
    method Equals(that: Cell?) returns (r: Result<bool>)
      ensures that == null ==> r == Ok(false)
      ensures that != null ==> r == CellCompare(weight.elems, aux, that.weight.elems, that.aux)
    {
      if that == null {
        return Ok(false);
      }
      var same := weight.Equals(that.weight);
      if same.Err? {
        return Err(same.error);
      }
      if !same.value {
        return Ok(false);
      }
      var keys := aux.Keys;
      while keys != {}
        invariant keys <= aux.Keys
        invariant forall k :: k in aux && k !in keys ==> k in that.aux && aux[k] == that.aux[k]
        decreases keys
      {
        var key :| key in keys;
        if key !in that.aux || aux[key] != that.aux[key] {
          return Ok(false);
        }
        keys := keys - {key};
      }
      return Ok(true);
    }
  }
}
