// The "stupid sort" sketch: 700 shuffled values, reshuffled on a click, and an
// `update` that repeatedly compares two random positions and swaps them when the
// later one holds the larger value, drifting the array into descending order.

module StupidSort {
  import opened JsValues
  import opened MathUtil

  /** How many values `setup` pushes. */
  const Count: nat := 700

  /** 0, 1, ..., n - 1: what the push loop of `setup` appends. */
  function Range(n: nat): (s: seq<int>)
    ensures |s| == n
    ensures forall i :: 0 <= i < n ==> s[i] == i
  {
    seq(n, i => i)
  }

  /** The samples of one `update` round: one for `index1` and one for `index2`. */
  predicate AllUnitPairs(us: seq<(real, real)>) {
    forall k :: 0 <= k < |us| ==> IsUnit(us[k].0) && IsUnit(us[k].1)
  }

  /**
   * The two positions one round compares: `index1 = floor(random(n))` and
   * `index2 = floor(random(index1))`; `random(0)` is 0, so `index2` is 0 when
   * `index1` is.
   */
  function Indices(n: nat, u1: real, u2: real): (p: (nat, nat))
    requires 0 < n && IsUnit(u1) && IsUnit(u2)
    ensures p.1 <= p.0 < n
    ensures 0 < p.0 ==> p.1 < p.0
  {
    var index1 := Random(u1, Some(n as real), None).Floor;
    var index2 := Random(u2, Some(index1 as real), None).Floor;
    (index1, index2)
  }

  /** One round: swap the two positions when the value at `index1` exceeds the value at `index2`. */
  function Step(s: seq<int>, u1: real, u2: real): (r: seq<int>)
    requires 0 < |s| && IsUnit(u1) && IsUnit(u2)
    ensures |r| == |s|
    ensures var (i1, i2) := Indices(|s|, u1, u2);
      r[i2] >= r[i1] &&
      (s[i1] > s[i2] ==> r[i2] == s[i1] && r[i1] == s[i2]) &&
      (s[i1] <= s[i2] ==> r == s) &&
      forall k :: 0 <= k < |s| && k != i1 && k != i2 ==> r[k] == s[k]
  {
    var (i1, i2) := Indices(|s|, u1, u2);
    if s[i1] > s[i2] then Swap(s, i2, i1) else s
  }

  /** A round exchanges two values at most, so the values and their counts are kept. */
  lemma StepPermutes(s: seq<int>, u1: real, u2: real)
    requires 0 < |s| && IsUnit(u1) && IsUnit(u2)
    ensures multiset(Step(s, u1, u2)) == multiset(s)
  {
    var (i1, i2) := Indices(|s|, u1, u2);
    if s[i1] > s[i2] {
      SwapPermutes(s, i2, i1);
    }
  }

  /** The array after the first `k` rounds, round `j` using the pair of samples `us[j]`. */
  function Steps(s: seq<int>, us: seq<(real, real)>, k: nat): (r: seq<int>)
    requires (0 < |s| || k == 0) && k <= |us| && AllUnitPairs(us)
    ensures |r| == |s|
    decreases k, 1
  {
    if k == 0 then s else Round(s, us, k - 1)
  }

  /** Round `j` applied to the array the rounds before it leave. */
  function Round(s: seq<int>, us: seq<(real, real)>, j: nat): (r: seq<int>)
    requires 0 < |s| && j < |us| && AllUnitPairs(us)
    ensures |r| == |s|
    decreases j + 1, 0
  {
    Step(Steps(s, us, j), us[j].0, us[j].1)
  }

  /** Each round applies `Step` to the result of the rounds before it. */
  lemma StepsNext(s: seq<int>, us: seq<(real, real)>, k: nat)
    requires 0 < |s| && k < |us| && AllUnitPairs(us)
    ensures Steps(s, us, k + 1) == Step(Steps(s, us, k), us[k].0, us[k].1)
  {
    assert Steps(s, us, k + 1) == Round(s, us, k);
  }

  /** A round keeps the values of the array it is applied to. */
  lemma RoundPermutes(s: seq<int>, us: seq<(real, real)>, k: nat)
    requires 0 < |s| && 0 < k <= |us| && AllUnitPairs(us)
    ensures multiset(Steps(s, us, k)) == multiset(Steps(s, us, k - 1))
  {
    StepsNext(s, us, k - 1);
    StepPermutes(Steps(s, us, k - 1), us[k - 1].0, us[k - 1].1);
  }

  /** Any number of rounds keeps the values and their counts. */
  lemma {:induction false} StepsPermute(s: seq<int>, us: seq<(real, real)>, k: nat)
    requires (0 < |s| || k == 0) && k <= |us| && AllUnitPairs(us)
    ensures multiset(Steps(s, us, k)) == multiset(s)
  {
    if k > 0 {
      StepsPermute(s, us, k - 1);
      RoundPermutes(s, us, k);
      calc {
        multiset(Steps(s, us, k));
        multiset(Steps(s, us, k - 1));
        multiset(s);
      }
    }
  }

  /** Values in non-increasing order: the order the sketch sorts into. */
  predicate Descending(s: seq<int>) {
    forall i, j :: 0 <= i < j < |s| ==> s[i] >= s[j]
  }

  /** An array already in non-increasing order is left as it is by any number of rounds. */
  lemma {:induction false} DescendingIsFixed(s: seq<int>, us: seq<(real, real)>, k: nat)
    requires (0 < |s| || k == 0) && k <= |us| && AllUnitPairs(us)
    requires Descending(s)
    ensures Steps(s, us, k) == s
  {
    if k > 0 {
      DescendingIsFixed(s, us, k - 1);
      StepsNext(s, us, k - 1);
      var (i1, i2) := Indices(|s|, us[k - 1].0, us[k - 1].1);
      assert s[i1] <= s[i2] by {
        if i2 < i1 {
          assert s[i2] >= s[i1];
        }
      }
    }
  }

  /** What `k` rounds are known to do: keep the values, and leave a descending array alone. */
  lemma RoundsResult(s: seq<int>, us: seq<(real, real)>, k: nat, r: seq<int>)
    requires (0 < |s| || k == 0) && k <= |us| && AllUnitPairs(us)
    requires r == Steps(s, us, k)
    ensures multiset(r) == multiset(s)
    ensures Descending(s) ==> r == s
  {
    StepsPermute(s, us, k);
    if Descending(s) {
      DescendingIsFixed(s, us, k);
    }
  }

  /** The iteration count of `for (let i = 0; i < values.length / 4; i++)` is the ceiling of n / 4. */
  lemma UpdateIterations(n: nat)
    ensures LoopCount(Finite(n as real / 4.0)) == (n + 3) / 4
  {
    var k := (n + 3) / 4;
    assert (k as real) * 4.0 >= n as real;
    assert k > 0 ==> ((k - 1) as real) * 4.0 < n as real;
    BelowMeansBeforeCount(k, Finite(n as real / 4.0));
    if k > 0 {
      BelowMeansBeforeCount(k - 1, Finite(n as real / 4.0));
    }
  }

  /** The test `i < values.length / 4` holds exactly for the first ceil(n / 4) values of `i`. */
  lemma QuarterTest(i: nat, n: nat)
    ensures Below(i, Finite(n as real / 4.0)) <==> i < (n + 3) / 4
  {
    UpdateIterations(n);
    BelowMeansBeforeCount(i, Finite(n as real / 4.0));
  }

  /** The sketch's module-level state. */
  class Sketch {
    var values: array<int>

    /** `const values = []`. */
    constructor ()
      ensures values.Length == 0
    {
      values := new int[0];
    }

    /**
     * `setup`: push 0..699 onto `values`, then shuffle it. Growing the JavaScript
     * array is modelled by moving to a larger array holding the old contents.
     */
    method Setup(us: seq<real>)
      requires ShuffleDraws(values.Length + Count) <= |us| && AllUnit(us)
      modifies this
      ensures fresh(values)
      ensures values[..] == Shuffled(old(values[..]) + Range(Count), us)
      ensures multiset(values[..]) == multiset(old(values[..])) + multiset(Range(Count))
      ensures old(values.Length) == 0 ==> multiset(values[..]) == multiset(Range(Count))
    {
      var n := values.Length;
      var grown := new int[n + Count];
      forall k | 0 <= k < n {
        grown[k] := values[k];
      }
      var i := 0;
      while i < Count
        invariant i <= Count
        invariant grown[..n + i] == old(values[..]) + Range(i)
      {
        grown[n + i] := i;
        assert grown[..n + i + 1] == grown[..n + i] + [i];
        i := i + 1;
      }
      assert grown[..] == grown[..n + Count];
      values := grown;
      ghost var pushed := values[..];
      var _ := Shuffle(values, us);
      ShufflePermutes(pushed, us);
      assert multiset(pushed) == multiset(old(values[..])) + multiset(Range(Count));
      if n == 0 {
        assert old(values[..]) == [];
      }
    }

    /** `mousePressed`: reshuffle `values` in place. */
    method MousePressed(us: seq<real>)
      requires ShuffleDraws(values.Length) <= |us| && AllUnit(us)
      modifies values
      ensures values[..] == Shuffled(old(values[..]), us)
      ensures multiset(values[..]) == multiset(old(values[..]))
    {
      var _ := Shuffle(values, us);
    }

    /**
     * The body of one `update` round: pick `index1` and `index2` from the samples
     * `us[k]`, swap when out of order. The array then holds round `k` applied to
     * the array that rounds before it left from `start`.
     */
    method CompareAndSwap(us: seq<(real, real)>, k: nat, ghost start: seq<int>)
      requires 0 < values.Length && k < |us| && AllUnitPairs(us)
      requires |start| == values.Length && values[..] == Steps(start, us, k)
      modifies values
      ensures values[..] == Steps(start, us, k + 1)
    {
      StepsNext(start, us, k);
      var index1 := Random(us[k].0, Some(values.Length as real), None).Floor;
      var index2 := Random(us[k].1, Some(index1 as real), None).Floor;
      if values[index1] > values[index2] {
        var temp := values[index2];
        values[index2] := values[index1];
        values[index1] := temp;
        assert values[..] == Swap(old(values[..]), index2, index1);
      }
    }

    /**
     * `update(dt)`: `ceil(values.length / 4)` rounds of compare-and-swap, round
     * `i` drawing its two indices from the samples `us[i]`. `dt` is not used.
     */
    method Update(dt: real, us: seq<(real, real)>)
      requires LoopCount(Finite(values.Length as real / 4.0)) <= |us| && AllUnitPairs(us)
      modifies values
      ensures var rounds := LoopCount(Finite(values.Length as real / 4.0));
        values[..] == Steps(old(values[..]), us, rounds)
      ensures multiset(values[..]) == multiset(old(values[..]))
      ensures Descending(old(values[..])) ==> values[..] == old(values[..])
    {
      ghost var start := values[..];
      UpdateIterations(values.Length);
      RunRounds(us);
      RoundsResult(start, us, (values.Length + 3) / 4, values[..]);
    }

    /** The loop of `update`: `for (let i = 0; i < values.length / 4; i++)`. */
    method RunRounds(us: seq<(real, real)>)
      requires (values.Length + 3) / 4 <= |us| && AllUnitPairs(us)
      modifies values
      ensures values[..] == Steps(old(values[..]), us, (values.Length + 3) / 4)
    {
      ghost var start := values[..];
      var bound := Finite(values.Length as real / 4.0);
      var i: nat := 0;
      while Below(i, bound)
        invariant i <= (values.Length + 3) / 4
        invariant values[..] == Steps(start, us, i)
        decreases (values.Length + 3) / 4 - i
      {
        QuarterTest(i, values.Length);
        CompareAndSwap(us, i, start);
        i := i + 1;
      }
      QuarterTest(i, values.Length);
    }
  }
}
