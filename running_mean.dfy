/** A running mean over the most recent samples (class RunningMeanStats in fqf_iqn/utils.py).
    The samples live in a deque with maxlen n: appending to a full deque drops its oldest
    sample. The deque is a sequence field, oldest sample first. */
module RunningMean {

  /** Sum of the samples. */
  function Sum(s: seq<real>): real
  {
    if s == [] then 0.0 else s[0] + Sum(s[1..])
  }

  /** Arithmetic mean of a non-empty sequence of samples (np.mean): the value that, taken
      once per sample, adds up to the samples' sum. */
  function Mean(s: seq<real>): (m: real)
    requires |s| > 0
    ensures m * (|s| as real) == Sum(s)
  {
    Sum(s) / (|s| as real)
  }

  /** The last min(|h|, n) elements of h: what a deque with maxlen n holds after the samples
      of h were appended to it in order. */
  function Window(h: seq<real>, n: nat): (w: seq<real>)
    ensures |w| == if |h| <= n then |h| else n
    ensures forall i :: 0 <= i < |w| ==> w[i] == h[|h| - |w| + i]
  {
    if |h| <= n then h else h[|h| - n..]
  }

  /** Appending one sample to the window of a history gives the window of the longer
      history: the deque only has to remember its last n samples. */
  lemma WindowAppend(h: seq<real>, x: real, n: nat)
    ensures Window(Window(h, n) + [x], n) == Window(h + [x], n)
  {
    var lhs, rhs := Window(Window(h, n) + [x], n), Window(h + [x], n);
    assert |lhs| == |rhs|;
    forall i | 0 <= i < |lhs| ensures lhs[i] == rhs[i] {
      var w := Window(h, n);
      if i == |lhs| - 1 {
        assert lhs[i] == (w + [x])[|w|] == x;
      } else {
        assert lhs[i] == w[|w| + 1 - |lhs| + i];
      }
    }
  }

  /** Sum of a sequence whose samples all lie in [lo, hi]. */
  lemma {:induction false} SumBounds(s: seq<real>, lo: real, hi: real)
    requires forall i :: 0 <= i < |s| ==> lo <= s[i] <= hi
    ensures lo * (|s| as real) <= Sum(s) <= hi * (|s| as real)
  {
    if s != [] {
      SumBounds(s[1..], lo, hi);
      assert lo <= s[0] <= hi;
    }
  }

  /** The mean lies between any lower and any upper bound on the samples. */
  lemma MeanBounds(s: seq<real>, lo: real, hi: real)
    requires |s| > 0
    requires forall i :: 0 <= i < |s| ==> lo <= s[i] <= hi
    ensures lo <= Mean(s) <= hi
  {
    SumBounds(s, lo, hi);
  }

  /** The mean of samples that are all equal to c is c. */
  lemma MeanOfConstant(s: seq<real>, c: real)
    requires |s| > 0
    requires forall i :: 0 <= i < |s| ==> s[i] == c
    ensures Mean(s) == c
  {
    MeanBounds(s, c, c);
  }

  class RunningMeanStats {
    /** The capacity: the deque's maxlen. */
    const n: nat
    /** The retained samples, oldest first. */
    var stats: seq<real>
    /** Every sample ever appended, oldest first. */
    ghost var history: seq<real>

    ghost predicate Valid()
      reads this
    {
      stats == Window(history, n)
    }

    /** __init__: an empty deque of capacity n. */
    constructor (n: nat)
      ensures Valid()
      ensures this.n == n && stats == [] && history == []
    {
      this.n := n;
      stats := [];
      history := [];
    }

    /** append: the new sample goes at the back; once the deque holds n samples the oldest
        one is dropped first. */
    method Append(x: real)
      requires Valid()
      modifies this
      ensures Valid()
      ensures history == old(history) + [x]
      ensures |stats| <= n
      ensures |old(stats)| < n ==> stats == old(stats) + [x]
      ensures 0 < n == |old(stats)| ==> stats == old(stats)[1..] + [x]
      ensures n == 0 ==> stats == []
    {
      WindowAppend(history, x, n);
      stats := Window(stats + [x], n);
      history := history + [x];
    }

    /** get: the mean of the retained samples, that is, of the last min(count, n) samples
        appended. An empty deque has no mean. */
    function Get(): (m: real)
      reads this
      requires Valid() && |stats| > 0
      ensures m == Mean(Window(history, n))
    {
      Mean(stats)
    }
  }

  /** A window of three fed 1, 2, 3, 4 holds 2, 3, 4, whose mean is 3. */
  method ExampleWindowOfThree()
  {
    var r := new RunningMeanStats(3);
    r.Append(1.0);
    r.Append(2.0);
    r.Append(3.0);
    r.Append(4.0);
    assert r.stats == [2.0, 3.0, 4.0];
    assert Sum([4.0]) == 4.0 && Sum([3.0, 4.0]) == 7.0;
    assert Sum(r.stats) == 9.0;
    assert r.Get() == 3.0;
  }
}
