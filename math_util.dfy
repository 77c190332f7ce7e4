// The engine's math utilities: range mapping, colour channels, random numbers
// drawn from a supplied uniform sample, and the in-place Fisher-Yates shuffle.

module MathUtil {
  import opened JsValues

  /**
   * Linear mapping of `value` from the range [f1, t1] onto the range [f2, t2]:
   * the point (value, r) lies on the line through (f1, f2) and (t1, t2).
   */
  function Map(value: real, f1: real, t1: real, f2: real, t2: real): (r: real)
    requires t1 != f1
    ensures Mul(r - f2, t1 - f1) == Mul(t2 - f2, value - f1)
  {
    f2 + ((t2 - f2) * (value - f1)) / (t1 - f1)
  }

  /** The mapping as the start of the output range plus a slope times the offset. */
  lemma MapSlope(value: real, f1: real, t1: real, f2: real, t2: real)
    requires t1 != f1
    ensures Map(value, f1, t1, f2, t2) == f2 + (t2 - f2) * ((value - f1) / (t1 - f1))
  {
    var d := t1 - f1;
    assert ((t2 - f2) * (value - f1)) / d == (t2 - f2) * ((value - f1) / d);
  }

  /** The mapping keeps weighted averages: mapping a mix of two values gives the same mix of their images. */
  lemma MapIsLinear(l: real, a: real, b: real, f1: real, t1: real, f2: real, t2: real)
    requires t1 != f1
    ensures Map(l * a + (1.0 - l) * b, f1, t1, f2, t2)
         == l * Map(a, f1, t1, f2, t2) + (1.0 - l) * Map(b, f1, t1, f2, t2)
  {
    var k := (t2 - f2) / (t1 - f1);
    var v := l * a + (1.0 - l) * b;
    MapSlope(v, f1, t1, f2, t2);
    MapSlope(a, f1, t1, f2, t2);
    MapSlope(b, f1, t1, f2, t2);
    assert (t2 - f2) * ((v - f1) / (t1 - f1)) == k * (v - f1);
    assert (t2 - f2) * ((a - f1) / (t1 - f1)) == k * (a - f1);
    assert (t2 - f2) * ((b - f1) / (t1 - f1)) == k * (b - f1);
    assert v - f1 == l * (a - f1) + (1.0 - l) * (b - f1);
    assert k * (v - f1) == l * (k * (a - f1)) + (1.0 - l) * (k * (b - f1));
  }

  /** The ends of the input range go to the ends of the output range. */
  lemma MapEndpoints(f1: real, t1: real, f2: real, t2: real)
    requires t1 != f1
    ensures Map(f1, f1, t1, f2, t2) == f2
    ensures Map(t1, f1, t1, f2, t2) == t2
  {
    MapSlope(f1, f1, t1, f2, t2);
    MapSlope(t1, f1, t1, f2, t2);
    assert (t1 - f1) / (t1 - f1) == 1.0;
  }

  /** Mapping back from [f2, t2] to [f1, t1] recovers the value. */
  lemma MapRoundTrip(value: real, f1: real, t1: real, f2: real, t2: real)
    requires t1 != f1 && t2 != f2
    ensures Map(Map(value, f1, t1, f2, t2), f2, t2, f1, t1) == value
  {
    var k := (value - f1) / (t1 - f1);
    MapSlope(value, f1, t1, f2, t2);
    var m := Map(value, f1, t1, f2, t2);
    assert m - f2 == (t2 - f2) * k;
    MapSlope(m, f2, t2, f1, t1);
    assert (m - f2) / (t2 - f2) == k;
    assert (t1 - f1) * k == value - f1;
  }

  /** A fraction of a positive width that is below the width lies in [0, 1). */
  lemma FractionBounds(x: real, w: real)
    requires 0.0 <= x < w
    ensures 0.0 <= x / w < 1.0
  {
    var q := x / w;
    assert q * w == x;
  }

  /** Scaling a positive width by a fraction in [0, 1) stays in [0, width). */
  lemma ScaledBounds(w: real, k: real)
    requires 0.0 < w && 0.0 <= k < 1.0
    ensures 0.0 <= w * k
    ensures w * k < w
  {
  }

  /** A value in the half-open range [f1, t1) maps into the half-open range [f2, t2). */
  lemma MapHalfOpen(value: real, f1: real, t1: real, f2: real, t2: real)
    requires f1 < t1 && f2 < t2
    requires f1 <= value < t1
    ensures f2 <= Map(value, f1, t1, f2, t2) < t2
  {
    MapSlope(value, f1, t1, f2, t2);
    FractionBounds(value - f1, t1 - f1);
    ScaledBounds(t2 - f2, (value - f1) / (t1 - f1));
  }

  /** Colour channels after scaling from the unit range to 0..255, and the alpha as given. */
  datatype Rgba = Rgba(r: real, g: real, b: real, a: real)

  /** The channel scaling of `RGBA(r, g, b, a)`: each colour channel goes through `map(c, 0, 1, 0, 255)`. */
  function ToRgba(r: real, g: real, b: real, a: real): (c: Rgba)
    ensures 0.0 <= r <= 1.0 ==> 0.0 <= c.r <= 255.0
    ensures 0.0 <= g <= 1.0 ==> 0.0 <= c.g <= 255.0
    ensures 0.0 <= b <= 1.0 ==> 0.0 <= c.b <= 255.0
    ensures c.a == a
  {
    Rgba(Map(r, 0.0, 1.0, 0.0, 255.0), Map(g, 0.0, 1.0, 0.0, 255.0), Map(b, 0.0, 1.0, 0.0, 255.0), a)
  }

  /** Black and white: channel 0 becomes 0 and channel 1 becomes 255. */
  lemma RgbaEndpoints(a: real)
    ensures ToRgba(0.0, 0.0, 0.0, a) == Rgba(0.0, 0.0, 0.0, a)
    ensures ToRgba(1.0, 1.0, 1.0, a) == Rgba(255.0, 255.0, 255.0, a)
  {
    MapEndpoints(0.0, 1.0, 0.0, 255.0);
  }

  /** The scaled channels determine the unit-range inputs. */
  lemma RgbaRoundTrip(r: real, g: real, b: real, a: real)
    ensures var c := ToRgba(r, g, b, a);
      Map(c.r, 0.0, 255.0, 0.0, 1.0) == r && Map(c.g, 0.0, 255.0, 0.0, 1.0) == g &&
      Map(c.b, 0.0, 255.0, 0.0, 1.0) == b
  {
    MapRoundTrip(r, 0.0, 1.0, 0.0, 255.0);
    MapRoundTrip(g, 0.0, 1.0, 0.0, 255.0);
    MapRoundTrip(b, 0.0, 1.0, 0.0, 255.0);
  }

  /** A sample of `Math.random()`: a number in [0, 1). */
  predicate IsUnit(u: real) {
    0.0 <= u < 1.0
  }

  /** Real multiplication as a named term, so that a product of differences can be passed to a lemma whole. */
  function Mul(a: real, b: real): real {
    a * b
  }

  /** A unit-range fraction of a positive width lies in [0, width). */
  lemma FractionOfWidth(w: real, u: real)
    requires 0.0 < w && IsUnit(u)
    ensures 0.0 <= Mul(w, u)
    ensures Mul(w, u) < w
  {
  }

  /** On the unit range the mapping is `min + (max - min) * u`, strictly short of `max`. */
  lemma UnitMapBounds(u: real, min: real, max: real)
    requires IsUnit(u)
    ensures Map(u, 0.0, 1.0, min, max) == min + Mul(max - min, u)
    ensures min < max ==> min <= Map(u, 0.0, 1.0, min, max) < max
    ensures max < min ==> max < Map(u, 0.0, 1.0, min, max) <= min
  {
    if min < max {
      FractionOfWidth(max - min, u);
    } else if max < min {
      FractionOfWidth(min - max, u);
      assert Mul(max - min, u) == -Mul(min - max, u);
    }
  }

  /** `randomRange(min, max)` with the sample `u` standing for `Math.random()`. */
  function RandomRange(u: real, min: real, max: real): (r: real)
    requires IsUnit(u)
    ensures min < max ==> min <= r < max
    ensures max < min ==> max < r <= min
    ensures min == max ==> r == min
    ensures u == 0.0 ==> r == min
  {
    UnitMapBounds(u, min, max);
    Map(u, 0.0, 1.0, min, max)
  }

  /**
   * `random(n1, n2)`: no first argument draws from [0, 1), a first argument alone
   * from [0, n1), and both arguments from [n1, n2). A second argument without a
   * first is ignored, as `random`'s first `typeof` test looks only at `n1`.
   */
  function Random(u: real, n1: Option<real>, n2: Option<real>): (r: real)
    requires IsUnit(u)
    ensures n1.None? ==> 0.0 <= r < 1.0
    ensures n1.Some? && n2.None? && 0.0 < n1.value ==> 0.0 <= r < n1.value
    ensures n1.Some? && n2.None? && n1.value == 0.0 ==> r == 0.0
    ensures n1.Some? && n2.None? && n1.value < 0.0 ==> n1.value < r <= 0.0
    ensures n1.Some? && n2.Some? && n1.value < n2.value ==> n1.value <= r < n2.value
    ensures n1.Some? && n2.Some? && n2.value < n1.value ==> n2.value < r <= n1.value
  {
    if n1.None? then RandomRange(u, 0.0, 1.0)
    else if n2.None? then RandomRange(u, 0.0, n1.value)
    else RandomRange(u, n1.value, n2.value)
  }

  /** The swap partner chosen for position `i`: `Math.floor(randomRange(0, i + 1))`. */
  function Pick(u: real, i: nat): (j: int)
    requires IsUnit(u)
    ensures 0 <= j <= i
  {
    RandomRange(u, 0.0, (i + 1) as real).Floor
  }

  /** Every sample in `us` is a sample of `Math.random()`. */
  predicate AllUnit(us: seq<real>) {
    forall k :: 0 <= k < |us| ==> IsUnit(us[k])
  }

  /** `s` with the elements at `i` and `j` exchanged. */
  function Swap<T>(s: seq<T>, i: nat, j: nat): (r: seq<T>)
    requires i < |s| && j < |s|
    ensures |r| == |s| && r[i] == s[j] && r[j] == s[i]
    ensures forall k :: 0 <= k < |s| && k != i && k != j ==> r[k] == s[k]
  {
    s[i := s[j]][j := s[i]]
  }

  /** Exchanging two elements keeps every element and its count. */
  lemma SwapPermutes<T>(s: seq<T>, i: nat, j: nat)
    requires i < |s| && j < |s|
    ensures multiset(Swap(s, i, j)) == multiset(s)
  {
    var t := s[i := s[j]];
    assert multiset(t) == multiset(s) - multiset{s[i]} + multiset{s[j]};
    assert t[j] == (if i == j then s[j] else s[j]);
    assert multiset(t[j := s[i]]) == multiset(t) - multiset{t[j]} + multiset{s[i]};
  }

  /**
   * The rounds of the shuffle from position `i` down to position 1, after
   * `used` samples have been consumed: the round at `i` uses `us[used]`.
   */
  function ShuffleFrom<T>(s: seq<T>, i: nat, us: seq<real>, used: nat): (r: seq<T>)
    requires i < |s| && used + i <= |us| && AllUnit(us)
    ensures |r| == |s|
    decreases i, 1
  {
    if i == 0 then s else ShuffleRound(s, i, us, used)
  }

  /** The round at position `i` (swap with the picked partner), then the rounds below it. */
  function ShuffleRound<T>(s: seq<T>, i: nat, us: seq<real>, used: nat): (r: seq<T>)
    requires 0 < i < |s| && used + i <= |us| && AllUnit(us)
    ensures |r| == |s|
    decreases i, 0
  {
    ShuffleFrom(Swap(s, i, Pick(us[used], i)), i - 1, us, used + 1)
  }

  /** The rounds from `i` down are the round at `i` followed by the rounds from `i - 1` down. */
  lemma ShuffleFromNext<T>(s: seq<T>, i: nat, us: seq<real>, used: nat)
    requires 0 < i < |s| && used + i <= |us| && AllUnit(us)
    ensures ShuffleFrom(s, i, us, used) == ShuffleFrom(Swap(s, i, Pick(us[used], i)), i - 1, us, used + 1)
  {
    assert ShuffleFrom(s, i, us, used) == ShuffleRound(s, i, us, used);
  }

  /** The number of samples a shuffle of `n` elements consumes. */
  function ShuffleDraws(n: nat): nat {
    if n == 0 then 0 else n - 1
  }

  /** The result of shuffling `s`, the samples standing for the successive `Math.random()` calls. */
  function Shuffled<T>(s: seq<T>, us: seq<real>): (r: seq<T>)
    requires ShuffleDraws(|s|) <= |us| && AllUnit(us)
    ensures |r| == |s|
    ensures |s| <= 1 ==> r == s
  {
    if |s| == 0 then s else ShuffleFrom(s, |s| - 1, us, 0)
  }

  lemma {:induction false} ShuffleFromPermutes<T>(s: seq<T>, i: nat, us: seq<real>, used: nat)
    requires i < |s| && used + i <= |us| && AllUnit(us)
    ensures multiset(ShuffleFrom(s, i, us, used)) == multiset(s)
    decreases i
  {
    if i > 0 {
      var j := Pick(us[used], i);
      ShuffleFromNext(s, i, us, used);
      SwapPermutes(s, i, j);
      ShuffleFromPermutes(Swap(s, i, j), i - 1, us, used + 1);
    }
  }

  /** A shuffle is a permutation: same length, same elements with the same counts. */
  lemma ShufflePermutes<T>(s: seq<T>, us: seq<real>)
    requires ShuffleDraws(|s|) <= |us| && AllUnit(us)
    ensures |Shuffled(s, us)| == |s|
    ensures multiset(Shuffled(s, us)) == multiset(s)
  {
    if |s| > 0 {
      ShuffleFromPermutes(s, |s| - 1, us, 0);
    }
  }

  /**
   * `shuffle(a)`: for i from the last index down to 1, swap a[i] with a[j] for
   * j drawn from 0..i; the array itself is returned.
   */
  method Shuffle<T>(a: array<T>, us: seq<real>) returns (r: array<T>)
    requires ShuffleDraws(a.Length) <= |us| && AllUnit(us)
    modifies a
    ensures r == a
    ensures a[..] == Shuffled(old(a[..]), us)
    ensures multiset(a[..]) == multiset(old(a[..]))
  {
    ghost var s := a[..];
    ShufflePermutes(s, us);
    r := a;
    if a.Length == 0 {
      return;
    }
    var i := a.Length - 1;
    while i > 0
      invariant 0 <= i < a.Length
      invariant ShuffleFrom(a[..], i, us, a.Length - 1 - i) == Shuffled(s, us)
    {
      ShuffleStep(a, i, us, a.Length - 1 - i);
      i := i - 1;
    }
  }

  /**
   * One round of `shuffle`: swap a[i] with a[j] for `j` drawn from 0..i by the
   * sample `us[used]`, leaving the rounds below `i` to do.
   */
  method ShuffleStep<T>(a: array<T>, i: nat, us: seq<real>, used: nat)
    requires 0 < i < a.Length && used + i <= |us| && AllUnit(us)
    modifies a
    ensures a[..] == Swap(old(a[..]), i, Pick(us[used], i))
    ensures ShuffleFrom(a[..], i - 1, us, used + 1) == ShuffleFrom(old(a[..]), i, us, used)
  {
    ShuffleFromNext(a[..], i, us, used);
    var j := Pick(us[used], i);
    var x := a[i];
    a[i] := a[j];
    a[j] := x;
    assert a[..] == Swap(old(a[..]), i, j);
  }
}
