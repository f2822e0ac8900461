/**
  The N-dimensional vector of numbers that holds cell weights and training
  inputs. A vector's components live in one mutable field that the
  destructive operations update in place; the static operations build a
  fresh vector and leave their operands alone. Every `double` is a `real`.
 */
module Vectors {
  import opened Outcomes

  /** The four element-wise operations that DoArithmetic is handed as lambdas. */
  datatype Op = Plus | Minus | Times | Over

  function Apply(op: Op, x: real, y: real): real
    requires op == Over ==> y != 0.0
  {
    match op
    case Plus => x + y
    case Minus => x - y
    case Times => x * y
    case Over => x / y
  }

  /** Dividing by the first `n` numbers of `b` is defined (division by zero is not checked by the source). */
  predicate Divisible(op: Op, b: seq<real>, n: nat)
    requires n <= |b|
  {
    op == Over ==> forall i :: 0 <= i < n ==> b[i] != 0.0
  }

  /** `op` applied to each pair of components, as many as the left operand has. */
  function Pointwise(op: Op, a: seq<real>, b: seq<real>): (r: seq<real>)
    requires |a| <= |b| && Divisible(op, b, |a|)
    ensures |r| == |a|
  {
    seq(|a|, i requires 0 <= i < |a| => Apply(op, a[i], b[i]))
  }

  /** The number `x` repeated `n` times (SameNumbers). */
  function Repeat(x: real, n: nat): (r: seq<real>)
    ensures |r| == n
    ensures forall i :: 0 <= i < n ==> r[i] == x
  {
    seq(n, _ => x)
  }

  /**
    What `Equals` answers when the receiver holds `a` and the argument holds `b`:
    it walks the indices of `a` only, so it never compares dimensions, a longer
    `b` may be "equal", and a shorter `b` whose components all agree makes the
    walk read past its end.
   */
  function Compare(a: seq<real>, b: seq<real>): Result<bool>
  {
    if |a| <= |b| then Ok(a == b[..|a|])
    else if a[..|b|] == b then Err(IndexOutOfRange)
    else Ok(false)
  }

  lemma CompareReflexive(a: seq<real>)
    ensures Compare(a, a) == Ok(true)
  {
    assert a[..|a|] == a;
  }

  /** Extra trailing components in the argument are never looked at. */
  lemma CompareIgnoresLongerArgument(a: seq<real>, extra: seq<real>)
    ensures Compare(a, a + extra) == Ok(true)
  {
    assert (a + extra)[..|a|] == a;
  }

  /** With the operands swapped, the same pair makes the read go out of range: Equals is not symmetric. */
  lemma CompareShorterArgumentFails(a: seq<real>, extra: seq<real>)
    requires extra != []
    ensures Compare(a + extra, a) == Err(IndexOutOfRange)
  {
    assert (a + extra)[..|a|] == a;
  }

  /**
    In the real-number model, subtracting what was added restores the original
    components. Doubles do not satisfy this: (1.0 + 1e16) − 1e16 is 0.0.
   */
  lemma SubtractUndoesAdd(a: seq<real>, b: seq<real>)
    requires |a| == |b|
    ensures Pointwise(Minus, Pointwise(Plus, a, b), b) == a
  {
  }

  /** In the real-number model, dividing by a non-zero factor undoes multiplying by it; rounding breaks this for doubles. */
  lemma DivideUndoesMultiply(a: seq<real>, m: real)
    requires m != 0.0
    ensures Pointwise(Over, Pointwise(Times, a, Repeat(m, |a|)), Repeat(m, |a|)) == a
  {
    var p := Pointwise(Times, a, Repeat(m, |a|));
    forall i | 0 <= i < |a|
      ensures Pointwise(Over, p, Repeat(m, |a|))[i] == a[i]
    {
      assert p[i] == a[i] * m;
    }
  }

  class Vector {
    /** The components (m_Vector); the dimension is their count and no operation changes it. */
    var elems: seq<real>

    /** Vector(IEnumerable<double>) and Vector(params double[]): the numbers are copied in order. */
    constructor FromSeq(nums: seq<real>)
      ensures elems == nums
    {
      elems := nums;
    }

    /** Vector(int): `dimension` components, each drawn from [0, 1). */
    constructor Random(dimension: nat)
      ensures |elems| == dimension
      ensures forall i :: 0 <= i < dimension ==> 0.0 <= elems[i] < 1.0
    {
      var comps: seq<real> := [];
      for i := 0 to dimension
        invariant |comps| == i
        invariant forall k :: 0 <= k < i ==> 0.0 <= comps[k] < 1.0
      {
        var x: real :| 0.0 <= x < 1.0;  // the shared random source
        comps := comps + [x];
      }
      elems := comps;
    }

    function Dimension(): nat
      reads this
    {
      |elems|
    }

    /** The indexer's getter: bounds-checked read of one component. */
    function Get(index: int): (r: Result<real>)
      reads this
      ensures r.Ok? <==> 0 <= index < Dimension()
      ensures r.Ok? ==> r.value == elems[index]
      ensures r.Err? ==> r.error == IndexOutOfRange
    {
      if index < 0 || index >= |elems| then Err(IndexOutOfRange) else Ok(elems[index])
    }

    /** The indexer's setter: an in-range write changes that component only. */
    method Set(index: int, value: real) returns (o: Outcome)
      modifies this
      ensures o == (if 0 <= index < old(Dimension()) then Pass else Fail(IndexOutOfRange))
      ensures Dimension() == old(Dimension())
      ensures elems == if o.Pass? then old(elems)[index := value] else old(elems)
      ensures o.Pass? ==> Get(index) == Ok(value)
      ensures forall j :: j != index ==> Get(j) == old(Get(j))
    {
      if index < 0 || index >= |elems| {
        return Fail(IndexOutOfRange);
      }
      elems := elems[index := value];
      return Pass;
    }

    /** The components handed to the action, in order; a null action is handed none. */
    method ForEach(hasAction: bool) returns (visited: seq<real>)
      ensures visited == if hasAction then elems else []
    {
      visited := [];
      if !hasAction {
        return;
      }
      for i := 0 to |elems|
        invariant visited == elems[..i]
      {
        visited := visited + [elems[i]];
      }
    }

    /** Destructive Add: checks the dimensions first, then adds `that` into this vector component by component. */
    method Add(that: Vector) returns (r: Result<Vector>)
      modifies this
      ensures old(that.Dimension()) != old(Dimension()) ==> r == Err(DimensionMismatch) && elems == old(elems)
      ensures old(that.Dimension()) == old(Dimension()) ==>
                r == Ok(this) && elems == Pointwise(Plus, old(elems), old(that.elems))
      ensures that != this ==> that.elems == old(that.elems)
    {
      var d := Dimension();
      if that.Dimension() != d {
        return Err(DimensionMismatch);
      }
      for i := 0 to d
        invariant |elems| == d && |that.elems| == d
        invariant forall k :: 0 <= k < i ==> elems[k] == old(elems[k]) + old(that.elems[k])
        invariant forall k :: i <= k < d ==> elems[k] == old(elems[k]) && that.elems[k] == old(that.elems[k])
        invariant that != this ==> that.elems == old(that.elems)
      {
        elems := elems[i := elems[i] + that.elems[i]];
      }
      return Ok(this);
    }

    /** Destructive Subtract: checks the dimensions first, then subtracts `that` from this vector. */
    method Subtract(that: Vector) returns (r: Result<Vector>)
      modifies this
      ensures old(that.Dimension()) != old(Dimension()) ==> r == Err(DimensionMismatch) && elems == old(elems)
      ensures old(that.Dimension()) == old(Dimension()) ==>
                r == Ok(this) && elems == Pointwise(Minus, old(elems), old(that.elems))
      ensures that != this ==> that.elems == old(that.elems)
    {
      var d := Dimension();
      if that.Dimension() != d {
        return Err(DimensionMismatch);
      }
      for i := 0 to d
        invariant |elems| == d && |that.elems| == d
        invariant forall k :: 0 <= k < i ==> elems[k] == old(elems[k]) - old(that.elems[k])
        invariant forall k :: i <= k < d ==> elems[k] == old(elems[k]) && that.elems[k] == old(that.elems[k])
        invariant that != this ==> that.elems == old(that.elems)
      {
        elems := elems[i := elems[i] - that.elems[i]];
      }
      return Ok(this);
    }

    /** Destructive Multiply: scales every component by `m`. */
    method Multiply(m: real) returns (r: Vector)
      modifies this
      ensures r == this
      ensures elems == Pointwise(Times, old(elems), Repeat(m, old(Dimension())))
    {
      ghost var d := Dimension();
      for i := 0 to Dimension()
        invariant |elems| == d
        invariant forall k :: 0 <= k < i ==> elems[k] == old(elems[k]) * m
        invariant forall k :: i <= k < d ==> elems[k] == old(elems[k])
      {
        elems := elems[i := elems[i] * m];
      }
      ghost var want := Pointwise(Times, old(elems), Repeat(m, d));
      assert forall k :: 0 <= k < d ==> want[k] == old(elems[k]) * m;
      return this;
    }

    /** Destructive Divide: divides every component by `d`, which the source does not check for zero. */
    method Divide(d: real) returns (r: Vector)
      requires d != 0.0
      modifies this
      ensures r == this
      ensures elems == Pointwise(Over, old(elems), Repeat(d, old(Dimension())))
    {
      ghost var n := Dimension();
      for i := 0 to Dimension()
        invariant |elems| == n
        invariant forall k :: 0 <= k < i ==> elems[k] == old(elems[k]) / d
        invariant forall k :: i <= k < n ==> elems[k] == old(elems[k])
      {
        elems := elems[i := elems[i] / d];
      }
      return this;
    }

    /** Static Add: a fresh vector holding the sums; neither operand changes. */
    static method Sum(left: Vector, right: Vector) returns (r: Result<Vector>)
      ensures left.Dimension() != right.Dimension() ==> r == Err(DimensionMismatch)
      ensures left.Dimension() == right.Dimension() ==>
                r.Ok? && fresh(r.value) && r.value.elems == Pointwise(Plus, left.elems, right.elems)
    {
      if left.Dimension() != right.Dimension() {
        return Err(DimensionMismatch);
      }
      var v := DoArithmetic(left, right.elems, Plus);
      return Ok(v);
    }

    /** Static Subtract: a fresh vector holding `left - right`; neither operand changes. */
    static method Difference(left: Vector, right: Vector) returns (r: Result<Vector>)
      ensures left.Dimension() != right.Dimension() ==> r == Err(DimensionMismatch)
      ensures left.Dimension() == right.Dimension() ==>
                r.Ok? && fresh(r.value) && r.value.elems == Pointwise(Minus, left.elems, right.elems)
    {
      if left.Dimension() != right.Dimension() {
        return Err(DimensionMismatch);
      }
      var v := DoArithmetic(left, right.elems, Minus);
      return Ok(v);
    }

    /** Static Multiply: a fresh vector holding every component times `m`. */
    static method Product(vector: Vector, m: real) returns (r: Vector)
      ensures fresh(r) && r.elems == Pointwise(Times, vector.elems, Repeat(m, vector.Dimension()))
    {
      r := DoArithmetic(vector, Repeat(m, vector.Dimension()), Times);
    }

    /** Static Divide: a fresh vector holding every component divided by `d` (not checked for zero by the source). */
    static method Quotient(vector: Vector, d: real) returns (r: Vector)
      requires d != 0.0
      ensures fresh(r) && r.elems == Pointwise(Over, vector.elems, Repeat(d, vector.Dimension()))
    {
      r := DoArithmetic(vector, Repeat(d, vector.Dimension()), Over);
    }

    /**
      Builds a fresh (randomly initialised) vector of the left operand's
      dimension and overwrites it, index by index, with `op` of the two operands.
     */
    static method DoArithmetic(left: Vector, right: seq<real>, op: Op) returns (result: Vector)
      requires left.Dimension() <= |right| && Divisible(op, right, left.Dimension())
      ensures fresh(result) && result.elems == Pointwise(op, left.elems, right)
    {
      result := new Vector.Random(left.Dimension());
      for i := 0 to left.Dimension()
        invariant result.Dimension() == left.Dimension()
        invariant forall k :: 0 <= k < i ==> result.elems[k] == Apply(op, left.elems[k], right[k])
      {
        var x := left.Get(i);
        var _ := result.Set(i, Apply(op, x.value, right[i]));
      }
    }

    /**
      Equals: false for null; otherwise compares the components at the
      receiver's indices, reading the argument at the same index.
     */
    method Equals(that: Vector?) returns (r: Result<bool>)
      ensures that == null ==> r == Ok(false)
      ensures that != null ==> r == Compare(elems, that.elems)
    {
      if that == null {
        return Ok(false);
      }
      var i := 0;
      while i != |elems|
        invariant 0 <= i <= |elems| && i <= |that.elems|
        invariant elems[..i] == that.elems[..i]
      {
        if i >= |that.elems| {
          return Err(IndexOutOfRange);
        }
        if elems[i] != that.elems[i] {
          return Ok(false);
        }
        i := i + 1;
      }
      return Ok(true);
    }
  }
}
