/** A stepwise learning-rate schedule (class LRSweeper in fqf_iqn/utils.py): every `interval`
    calls of step, the sweeper moves to the next rate of a fixed list and writes it into every
    parameter group of the optimizer. The optimizer is modelled by its parameter groups'
    learning rates, an array that set_lr overwrites in place. */
module Sweeper {

  /** The two counters that step updates. */
  datatype Counters = Counters(steps: int, index: int)

  /** One call of step as written: count the step, and move to the next rate whenever the
      new count is a multiple of interval. */
  function Advance(c: Counters, interval: nat): (r: Counters)
    requires interval > 0
    ensures r.steps == c.steps + 1
    ensures c.index <= r.index <= c.index + 1
    ensures c.index == c.steps / interval ==> r.index == r.steps / interval
  {
    DivSucc(c.steps, interval);
    var s := c.steps + 1;
    Counters(s, if s % interval == 0 then c.index + 1 else c.index)
  }

  /** The counters after k calls of step, starting from c. */
  function AdvanceTimes(c: Counters, interval: nat, k: nat): Counters
    requires interval > 0
  {
    if k == 0 then c else Advance(AdvanceTimes(c, interval, k - 1), interval)
  }

  /** Counting one more step raises the quotient by one exactly when the new count is a
      multiple of d. */
  lemma DivSucc(m: int, d: nat)
    requires d > 0
    ensures (m + 1) / d == m / d + (if (m + 1) % d == 0 then 1 else 0)
  {
    var q, r := m / d, m % d;
    assert m == q * d + r && 0 <= r < d;
    if r + 1 == d {
      DivExact(m + 1, d, q + 1, 0);
    } else {
      DivExact(m + 1, d, q, r + 1);
    }
  }

  /** A larger factor gives a product larger by at least d. */
  lemma MulSuccLe(a: int, b: int, d: nat)
    requires a < b
    ensures a * d + d <= b * d
  {
    var e: nat := b - a - 1;
    assert b * d == a * d + d + e * d;
  }

  /** q1 * d + r1 == q2 * d + r2 with r1 < d leaves no room for q2 > q1. */
  lemma QuotientLe(q1: int, r1: nat, q2: int, r2: nat, d: nat)
    requires r1 < d && q1 * d + r1 == q2 * d + r2
    ensures q2 <= q1
  {
    if q1 < q2 {
      MulSuccLe(q1, q2, d);
    }
  }

  /** Quotient and remainder are determined by x == q * d + r with 0 <= r < d. */
  lemma DivExact(x: int, d: nat, q: int, r: nat)
    requires d > 0 && r < d && x == q * d + r
    ensures x / d == q && x % d == r
  {
    var q', r': nat := x / d, x % d;
    assert x == q' * d + r' && r' < d;
    QuotientLe(q, r, q', r', d);
    QuotientLe(q', r', q, r, d);
  }

  /** From a fresh sweeper, k calls of step leave steps == k and index == k / interval. */
  lemma {:induction false} CountersAfter(interval: nat, k: nat)
    requires interval > 0
    ensures AdvanceTimes(Counters(0, 0), interval, k) == Counters(k, k / interval)
  {
    if k > 0 {
      CountersAfter(interval, k - 1);
    }
  }

  /** A step count x is at an index inside a list of n rates exactly when x < n * interval;
      so the step from `steps` to steps + 1 is safe exactly when steps + 1 < n * interval. */
  lemma SafeStepBound(x: nat, interval: nat, n: nat)
    requires interval > 0
    ensures x / interval < n <==> x < n * interval
  {
    var q: nat, r: nat := x / interval, x % interval;
    assert x == q * interval + r && r < interval;
    if q < n {
      MulSuccLe(q, n, interval);
    } else if n < q {
      MulSuccLe(n, q, interval);
    }
  }

  /** As written, the guard at the top of step does nothing: from a fresh sweeper over n rates,
      n * interval calls of step push the index to n, past the last rate, where set_lr's
      assertion fails. */
  lemma UnguardedIndexEscapes(interval: nat, n: nat)
    requires interval > 0
    ensures AdvanceTimes(Counters(0, 0), interval, n * interval).index == n
  {
    CountersAfter(interval, n * interval);
    DivExact(n * interval, interval, n, 0);
  }

  /** The guard as evidently intended: once the index is at the last of n rates, step changes
      nothing. */
  function AdvanceGuarded(c: Counters, interval: nat, n: nat): (r: Counters)
    requires interval > 0
    ensures c.index == n - 1 ==> r == c
    ensures c.index == c.steps / interval && c.index < n ==> r.index == r.steps / interval && r.index < n
  {
    if c.index == n - 1 then c else Advance(c, interval)
  }

  function AdvanceGuardedTimes(c: Counters, interval: nat, n: nat, k: nat): Counters
    requires interval > 0
  {
    if k == 0 then c else AdvanceGuarded(AdvanceGuardedTimes(c, interval, n, k - 1), interval, n)
  }

  /** Minimum on the counters, which are ints; Annealer.Min is on nats, and using it here
      would add a non-negativity obligation for (n - 1) * interval at every use. */
  function Min(x: int, y: int): int
  {
    if x <= y then x else y
  }

  /** With the guard, from a fresh sweeper over n > 0 rates, k calls of step stop counting at
      the step that reaches the last rate: steps == min(k, (n - 1) * interval) and the index
      stays steps / interval. */
  lemma {:induction false} GuardedCountersAfter(interval: nat, n: nat, k: nat)
    requires interval > 0 && n > 0
    ensures AdvanceGuardedTimes(Counters(0, 0), interval, n, k)
         == Counters(Min(k, (n - 1) * interval), Min(k, (n - 1) * interval) / interval)
  {
    if k > 0 {
      var last := (n - 1) * interval;
      var m := Min(k - 1, last);
      var c := AdvanceGuardedTimes(Counters(0, 0), interval, n, k - 1);
      GuardedCountersAfter(interval, n, k - 1);
      assert c == Counters(m, m / interval);
      GuardedStep(interval, n, m);
      assert AdvanceGuardedTimes(Counters(0, 0), interval, n, k) == AdvanceGuarded(c, interval, n);
      if m < last {
        assert Min(k, last) == m + 1;
      } else {
        assert Min(k, last) == m;
      }
    }
  }

  /** One guarded step from a counter s <= (n - 1) * interval that is in step with its index:
      below the last rate it counts, at the last rate it does nothing. */
  lemma GuardedStep(interval: nat, n: nat, s: nat)
    requires interval > 0 && n > 0 && s <= (n - 1) * interval
    ensures var last := (n - 1) * interval;
      AdvanceGuarded(Counters(s, s / interval), interval, n)
      == if s < last then Counters(s + 1, (s + 1) / interval) else Counters(s, s / interval)
  {
    var last := (n - 1) * interval;
    if s < last {
      SafeStepBound(s, interval, n - 1);
    } else {
      DivExact(last, interval, n - 1, 0);
    }
  }

  /** With the guard the index never leaves the list of n > 0 rates. */
  lemma GuardedIndexInRange(interval: nat, n: nat, k: nat)
    requires interval > 0 && n > 0
    ensures AdvanceGuardedTimes(Counters(0, 0), interval, n, k).index < n
  {
    GuardedCountersAfter(interval, n, k);
    MulSuccLe(n - 1, n, interval);
    SafeStepBound(Min(k, (n - 1) * interval), interval, n);
  }

  class LRSweeper {
    /** The learning rate of each of the optimizer's parameter groups. */
    const paramGroups: array<real>
    const values: seq<real>
    const interval: nat
    const n: nat
    var steps: nat
    var index: nat
    var lr: real

    /** The groups all hold rate x. */
    ghost predicate GroupsAt(x: real)
      reads paramGroups
    {
      forall i :: 0 <= i < paramGroups.Length ==> paramGroups[i] == x
    }

    ghost predicate Valid()
      reads this, paramGroups
    {
      n == |values| && interval > 0 &&
      index == steps / interval && index < n &&
      lr == values[index] && GroupsAt(lr)
    }

    /** __init__: interval must be positive, and the call of set_lr at index 0 needs at least
        one rate. */
    constructor (optimizer: array<real>, values: seq<real>, interval: nat)
      requires interval > 0 && |values| > 0
      modifies optimizer
      ensures Valid()
      ensures paramGroups == optimizer && this.values == values && this.interval == interval
      ensures steps == 0 && index == 0 && lr == values[0]
    {
      paramGroups := optimizer;
      this.values := values;
      this.interval := interval;
      steps := 0;
      index := 0;
      n := |values|;
      new;
      SetLr();
    }

    /** set_lr: write the current rate into every parameter group and remember it. The source
        asserts 0 <= index < n first. */
    method SetLr()
      requires n == |values| && index < n
      modifies this`lr, paramGroups
      ensures lr == values[index]
      ensures GroupsAt(values[index])
    {
      var i := 0;
      while i < paramGroups.Length
        invariant 0 <= i <= paramGroups.Length
        invariant forall j :: 0 <= j < i ==> paramGroups[j] == values[index]
      {
        paramGroups[i] := values[index];
        i := i + 1;
      }
      lr := values[index];
    }

    /** step, as written. The guard on the last index does nothing, so the caller must keep
        the index inside the list: the step is only safe while steps + 1 < n * interval. */
    method Step()
      requires Valid()
      requires steps + 1 < n * interval
      modifies this, paramGroups
      ensures Valid()
      ensures Counters(steps, index) == Advance(old(Counters(steps, index)), interval)
      ensures steps % interval != 0 ==> lr == old(lr) && unchanged(paramGroups)
    {
      if index == n - 1 {
        // the source's guard: it does nothing
      }
      DivSucc(steps, interval);
      SafeStepBound(steps + 1, interval, n);
      steps := steps + 1;
      if steps % interval == 0 {
        index := index + 1;
        SetLr();
      }
    }

    /** step with the guard as evidently intended: at the last rate it returns at once, so it
        needs no precondition and the index never leaves the list. */
    method StepGuarded()
      requires Valid()
      modifies this, paramGroups
      ensures Valid()
      ensures Counters(steps, index) == AdvanceGuarded(old(Counters(steps, index)), interval, n)
      ensures old(index) == n - 1 ==> lr == old(lr) && unchanged(paramGroups)
    {
      if index == n - 1 {
        return;
      }
      DivSucc(steps, interval);
      SafeStepBound(steps + 1, interval, n);
      Step();
    }

    /** get: the rate last written, which is the list's rate at the current index and the
        rate of every parameter group. */
    function Get(): (r: real)
      reads this, paramGroups
      requires Valid()
      ensures r == values[index]
      ensures GroupsAt(r)
    {
      lr
    }
  }

  /** Rates 0.1 then 0.01, switching every 2 steps: 0.1 at first, 0.01 after two steps, and
      after three steps the fourth step is not allowed, since it would move past the list. */
  method ExampleTwoRates()
  {
    var groups := new real[2];
    var sw := new LRSweeper(groups, [0.1, 0.01], 2);
    assert sw.Get() == 0.1;
    sw.Step();
    assert sw.Get() == 0.1;
    sw.Step();
    assert sw.Get() == 0.01 && groups[0] == 0.01 && groups[1] == 0.01;
    sw.Step();
    assert sw.Get() == 0.01;
    assert !(sw.steps + 1 < sw.n * sw.interval);
    sw.StepGuarded();
    assert sw.Get() == 0.01 && sw.steps == 3;
  }
}
