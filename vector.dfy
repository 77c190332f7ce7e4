// The engine's n-dimensional `Vector`: an array of numbers built by a count-based
// constructor, with component accessors, subtraction and magnitude.

module Vectors {
  import opened JsValues

  /** `n` zeros: what the constructor's loop pushes. */
  function Zeros(n: nat): (z: seq<Num>)
    ensures |z| == n
    ensures forall k :: 0 <= k < n ==> z[k] == Finite(0.0)
  {
    seq(n, _ => Finite(0.0))
  }

  /** Reading element `i` of a JavaScript array: past the end reads as NaN. */
  function At(s: seq<Num>, i: nat): (v: Num)
    ensures i < |s| ==> v == s[i]
    ensures |s| <= i ==> v == NaN
  {
    if i < |s| then s[i] else NaN
  }

  /**
   * Writing element `i` of a JavaScript array: inside the array it replaces the
   * element; past the end the array grows to `i + 1`, the gap being holes that
   * read as NaN.
   */
  function SetAt(s: seq<Num>, i: nat, v: Num): (r: seq<Num>)
    ensures |r| == if i < |s| then |s| else i + 1
  {
    if i < |s| then s[i := v] else s + seq(i - |s|, _ => NaN) + [v]
  }

  /** After a write, the written index reads the new value and every other index reads as before. */
  lemma SetThenGet(s: seq<Num>, i: nat, v: Num, k: nat)
    ensures At(SetAt(s, i, v), k) == if k == i then v else At(s, k)
  {
    if i >= |s| && k < |SetAt(s, i, v)| && k != i {
      assert SetAt(s, i, v)[k] == (s + seq(i - |s|, _ => NaN))[k];
    }
  }

  /** The element-wise differences `a[i] - b[i]` for every index of `a`, as the loop in `sub` builds them. */
  function Differences(a: seq<Num>, b: seq<Num>): (d: seq<Num>)
    ensures |d| == |a|
    ensures forall k :: 0 <= k < |a| && k < |b| ==> d[k] == Minus(a[k], b[k])
    ensures forall k :: |b| <= k < |a| ==> d[k] == NaN
  {
    seq(|a|, i requires 0 <= i < |a| => Minus(a[i], At(b, i)))
  }

  /**
   * The number an array becomes where a number is expected (`i < values`):
   * the empty array is 0, a one-element array is its element, and a longer
   * array joins to a string with commas, which is NaN.
   */
  function ArrayToNumber(values: seq<Num>): (n: Num)
    ensures |values| == 0 ==> n == Finite(0.0)
    ensures |values| == 1 ==> n == values[0]
    ensures |values| >= 2 ==> n == NaN
  {
    if |values| == 0 then Finite(0.0)
    else if |values| == 1 then values[0]
    else NaN
  }

  /** What `sub` returns as written: a vector of zeros whose length comes from coercing the differences to a count. */
  function SubAsWritten(a: seq<Num>, b: seq<Num>): (r: seq<Num>)
    ensures |a| != 1 ==> r == []
    ensures forall k :: 0 <= k < |r| ==> r[k] == Finite(0.0)
  {
    Zeros(LoopCount(ArrayToNumber(Differences(a, b))))
  }

  /** `Vector.sub` as written discards the differences: [5, 5, 5] minus [1, 2, 3] is the empty vector, not [4, 3, 2]. */
  lemma SubLosesDifferences()
    ensures SubAsWritten([Finite(5.0), Finite(5.0), Finite(5.0)], [Finite(1.0), Finite(2.0), Finite(3.0)]) == []
    ensures Differences([Finite(5.0), Finite(5.0), Finite(5.0)], [Finite(1.0), Finite(2.0), Finite(3.0)])
         == [Finite(4.0), Finite(3.0), Finite(2.0)]
  {
    var d := Differences([Finite(5.0), Finite(5.0), Finite(5.0)], [Finite(1.0), Finite(2.0), Finite(3.0)]);
    assert d[0] == Finite(4.0) && d[1] == Finite(3.0) && d[2] == Finite(2.0);
  }

  /** For a one-dimensional vector, as written, the difference becomes the result's length: [3.5] minus [1] has three zeros. */
  lemma SubOneDimension()
    ensures SubAsWritten([Finite(3.5)], [Finite(1.0)]) == Zeros(3)
  {
    assert Differences([Finite(3.5)], [Finite(1.0)]) == [Finite(2.5)];
  }

  /** Adding the subtrahend back to the intended difference recovers each finite component. */
  lemma DifferencesAddBack(a: seq<Num>, b: seq<Num>, k: nat)
    requires k < |a| && k < |b| && a[k].Finite? && b[k].Finite?
    ensures Plus(Differences(a, b)[k], b[k]) == a[k]
  {
  }

  /** The sum of the squares of the components, accumulated from the first: the square of the magnitude. */
  function SumSquares(s: seq<Num>): (r: Num)
    ensures (forall k :: 0 <= k < |s| ==> s[k].Finite?) <==> r.Finite?
    ensures r.Finite? ==> r.val >= 0.0
  {
    if s == [] then Finite(0.0)
    else Plus(SumSquares(s[..|s| - 1]), Square(s[|s| - 1]))
  }

  /** The zero vector of any dimension has magnitude zero. */
  lemma {:induction false} ZerosHaveNoLength(n: nat)
    ensures SumSquares(Zeros(n)) == Finite(0.0)
  {
    if n > 0 {
      ZerosHaveNoLength(n - 1);
      assert Zeros(n)[..n - 1] == Zeros(n - 1);
    }
  }

  /** The vector `sub` returns as written always has magnitude zero. */
  lemma SubAsWrittenHasNoLength(a: seq<Num>, b: seq<Num>)
    ensures SumSquares(SubAsWritten(a, b)) == Finite(0.0)
  {
    ZerosHaveNoLength(LoopCount(ArrayToNumber(Differences(a, b))));
  }

  /** The squared magnitude of [3, 4] is 25, so its magnitude is 5. */
  lemma SquaredMagnitudeOfThreeFour()
    ensures SumSquares([Finite(3.0), Finite(4.0)]) == Finite(25.0)
  {
    assert [Finite(3.0), Finite(4.0)][..1] == [Finite(3.0)];
    assert [Finite(3.0)][..0] == [];
  }

  class Vector {
    /** The components; the array's length is the dimension. */
    var numbers: seq<Num>

    /** `new Vector(values)`: pushes one zero for each `i` with `i < values`. */
    constructor (values: Num)
      ensures numbers == Zeros(LoopCount(values))
    {
      var pushed: seq<Num> := [];
      var i: nat := 0;
      while Below(i, values)
        invariant i <= LoopCount(values)
        invariant pushed == Zeros(i)
        decreases LoopCount(values) - i
      {
        BelowMeansBeforeCount(i, values);
        pushed := pushed + [Finite(0.0)];
        i := i + 1;
      }
      BelowMeansBeforeCount(i, values);
      numbers := pushed;
    }

    /** `Vector.create(x, y, z)`: dimension 2, or 3 when `z` is given. */
    static method Create(x: real, y: real, z: Option<real>) returns (v: Vector)
      ensures fresh(v)
      ensures z.None? ==> v.numbers == [Finite(x), Finite(y)]
      ensures z.Some? ==> v.numbers == [Finite(x), Finite(y), Finite(z.value)]
    {
      var n := if z.None? then 2.0 else 3.0;
      v := new Vector(Finite(n));
      var _ := v.SetX(x);
      var _ := v.SetY(y);
      if z.Some? {
        var _ := v.SetZ(z.value);
      }
    }

    /** `x()`: component 0. */
    function X(): (v: Num)
      reads this
      ensures 0 < |numbers| ==> v == numbers[0]
      ensures |numbers| == 0 ==> v == NaN
    {
      At(numbers, 0)
    }

    /** `y()`: component 1. */
    function Y(): (v: Num)
      reads this
      ensures 1 < |numbers| ==> v == numbers[1]
      ensures |numbers| <= 1 ==> v == NaN
    {
      At(numbers, 1)
    }

    /** `z()`: component 2. */
    function Z(): (v: Num)
      reads this
      ensures 2 < |numbers| ==> v == numbers[2]
      ensures |numbers| <= 2 ==> v == NaN
    {
      At(numbers, 2)
    }

    /** `setX(val)`: writes component 0 and returns the value written. */
    method SetX(val: real) returns (r: real)
      modifies this
      ensures numbers == SetAt(old(numbers), 0, Finite(val))
      ensures r == val && X() == Finite(val)
    {
      numbers := SetAt(numbers, 0, Finite(val));
      r := val;
    }

    /** `setY(val)`: writes component 1 and returns the value written. */
    method SetY(val: real) returns (r: real)
      modifies this
      ensures numbers == SetAt(old(numbers), 1, Finite(val))
      ensures r == val && Y() == Finite(val)
    {
      numbers := SetAt(numbers, 1, Finite(val));
      r := val;
    }

    /** `setZ(val)`: writes component 2 and returns the value written. */
    method SetZ(val: real) returns (r: real)
      modifies this
      ensures numbers == SetAt(old(numbers), 2, Finite(val))
      ensures r == val && Z() == Finite(val)
    {
      numbers := SetAt(numbers, 2, Finite(val));
      r := val;
    }

    /**
     * `sub(other)` as written: the loop collects the differences, but they are
     * handed to the count-based constructor, which only counts.
     */
    method Sub(other: Vector) returns (r: Vector)
      ensures fresh(r)
      ensures r.numbers == SubAsWritten(numbers, other.numbers)
    {
      var vals: seq<Num> := [];
      var i := 0;
      while i < |numbers|
        invariant i <= |numbers|
        invariant vals == Differences(numbers[..i], other.numbers)
      {
        vals := vals + [Minus(numbers[i], At(other.numbers, i))];
        i := i + 1;
      }
      assert numbers[..i] == numbers;
      r := new Vector(ArrayToNumber(vals));
    }

    /** `sub(other)` as intended: the component-wise difference, of this vector's dimension. */
    method SubCorrected(other: Vector) returns (r: Vector)
      ensures fresh(r)
      ensures r.numbers == Differences(numbers, other.numbers)
    {
      var vals: seq<Num> := [];
      var i := 0;
      while i < |numbers|
        invariant i <= |numbers|
        invariant vals == Differences(numbers[..i], other.numbers)
      {
        vals := vals + [Minus(numbers[i], At(other.numbers, i))];
        i := i + 1;
      }
      assert numbers[..i] == numbers;
      r := new Vector(Finite(0.0));
      r.numbers := vals;
    }

    /** `mag()` without the final square root: the sum of the squared components. */
    method MagSquared() returns (sum: Num)
      ensures sum == SumSquares(numbers)
    {
      sum := Finite(0.0);
      var i := 0;
      while i < |numbers|
        invariant i <= |numbers|
        invariant sum == SumSquares(numbers[..i])
      {
        assert numbers[..i + 1][..i] == numbers[..i];
        sum := Plus(sum, Square(numbers[i]));
        i := i + 1;
      }
      assert numbers[..i] == numbers;
    }
  }
}
