// JavaScript values that the engine's arithmetic produces, as far as the model needs them.

module JsValues {

  /** An optional argument or slot: `None` is JavaScript's `undefined`. */
  datatype Option<T> = None | Some(value: T) {
    /** The value, or the parameter default that JavaScript substitutes for `undefined`. */
    function GetOr(default: T): T {
      match this
      case Some(v) => v
      case None => default
    }
  }

  /**
   * A JavaScript number: a finite value (modelled exactly, as a real) or NaN.
   * Reading a missing array element yields `undefined`, which every arithmetic
   * use in the engine turns into NaN; the model represents it by `NaN` directly.
   */
  datatype Num = Finite(val: real) | NaN

  /** JavaScript `a - b`. */
  function Minus(a: Num, b: Num): Num {
    if a.Finite? && b.Finite? then Finite(a.val - b.val) else NaN
  }

  /** JavaScript `a + b` on numbers. */
  function Plus(a: Num, b: Num): Num {
    if a.Finite? && b.Finite? then Finite(a.val + b.val) else NaN
  }

  /** JavaScript `a * a`. */
  function Square(a: Num): Num {
    if a.Finite? then Finite(a.val * a.val) else NaN
  }

  /** JavaScript `i < bound` for a loop counter `i`; every comparison with NaN is false. */
  predicate Below(i: nat, bound: Num) {
    bound.Finite? && (i as real) < bound.val
  }

  /**
   * The number of iterations of `for (let i = 0; i < bound; i++)`:
   * the least natural number that is not below `bound`.
   */
  function LoopCount(bound: Num): (k: nat)
    ensures !Below(k, bound)
    ensures forall i: nat :: i < k ==> Below(i, bound)
  {
    match bound
    case NaN => 0
    case Finite(v) =>
      if v <= 0.0 then 0
      else if v.Floor as real == v then v.Floor
      else v.Floor + 1
  }

  /** Counting up stays below the bound until the loop count is reached. */
  lemma BelowMeansBeforeCount(i: nat, bound: Num)
    ensures Below(i, bound) <==> i < LoopCount(bound)
  {
    if Below(i, bound) && i >= LoopCount(bound) {
      assert false;
    }
  }
}
