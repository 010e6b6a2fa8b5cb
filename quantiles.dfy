/** The gather of quantile values at the chosen actions (evaluate_quantile_at_action in
    fqf_iqn/utils.py). A tensor of shape (batch, num_taus, num_actions) is a nested sequence
    indexed as s[b][t][a]; the actions, a (batch, 1) tensor, are flattened to one index per
    batch element. */
module Quantiles {

  /** x is a rectangular nested sequence of shape (b, t, a). */
  ghost predicate HasShape(x: seq<seq<seq<real>>>, b: nat, t: nat, a: nat)
  {
    |x| == b &&
    (forall i :: 0 <= i < |x| ==> |x[i]| == t) &&
    (forall i, j :: 0 <= i < |x| && 0 <= j < |x[i]| ==> |x[i][j]| == a)
  }

  /** a is a valid position in every row: gather raises on an index outside the action axis. */
  ghost predicate InRows(rows: seq<seq<real>>, a: int)
  {
    0 <= a && forall t :: 0 <= t < |rows| ==> a < |rows[t]|
  }

  /** Every action index is a valid position in every row of its own batch element. */
  ghost predicate ActionsInRange(s: seq<seq<seq<real>>>, actions: seq<int>)
    requires |s| == |actions|
  {
    forall b :: 0 <= b < |s| ==> InRows(s[b], actions[b])
  }

  /** The quantile rows of one batch element, each cut down to the single entry at action a. */
  function Column(rows: seq<seq<real>>, a: int): (c: seq<seq<real>>)
    requires InRows(rows, a)
    ensures |c| == |rows|
    ensures forall t :: 0 <= t < |rows| ==> c[t] == [rows[t][a]]
  {
    if rows == [] then [] else [[rows[0][a]]] + Column(rows[1..], a)
  }

  /** s_quantiles.gather(dim=2, index=actions[..., None].expand(batch, num_taus, 1)). */
  function EvaluateQuantileAtAction(s: seq<seq<seq<real>>>, actions: seq<int>): (r: seq<seq<seq<real>>>)
    requires |s| == |actions|
    requires ActionsInRange(s, actions)
    ensures |r| == |s|
    ensures forall b :: 0 <= b < |s| ==> |r[b]| == |s[b]|
    ensures forall b, t :: 0 <= b < |s| && 0 <= t < |s[b]| ==> r[b][t] == [s[b][t][actions[b]]]
  {
    if s == [] then []
    else
      assert InRows(s[0], actions[0]);
      [Column(s[0], actions[0])] + EvaluateQuantileAtAction(s[1..], actions[1..])
  }

  /** The gather turns a (batch, num_taus, num_actions) tensor into one of shape
      (batch, num_taus, 1). */
  lemma GatherShape(s: seq<seq<seq<real>>>, actions: seq<int>, numTaus: nat, numActions: nat)
    requires HasShape(s, |s|, numTaus, numActions)
    requires |s| == |actions|
    requires forall b :: 0 <= b < |actions| ==> 0 <= actions[b] < numActions
    ensures ActionsInRange(s, actions)
    ensures HasShape(EvaluateQuantileAtAction(s, actions), |s|, numTaus, 1)
  {
  }

  /** A batch made of two well-indexed batches is well indexed. */
  lemma RangeSplits(s1: seq<seq<seq<real>>>, a1: seq<int>, s2: seq<seq<seq<real>>>, a2: seq<int>)
    requires |s1| == |a1| && ActionsInRange(s1, a1)
    requires |s2| == |a2| && ActionsInRange(s2, a2)
    ensures |s1 + s2| == |a1 + a2| && ActionsInRange(s1 + s2, a1 + a2)
  {
    var s, a := s1 + s2, a1 + a2;
    forall b | 0 <= b < |s| ensures InRows(s[b], a[b]) {
      if b < |s1| {
        assert s[b] == s1[b] && a[b] == a1[b];
      } else {
        assert s[b] == s2[b - |s1|] && a[b] == a2[b - |s1|];
      }
    }
  }

  /** The index-level contract of the gather determines its result. */
  lemma GatherUnique(s: seq<seq<seq<real>>>, actions: seq<int>, r: seq<seq<seq<real>>>)
    requires |s| == |actions| && ActionsInRange(s, actions)
    requires |r| == |s| && forall b :: 0 <= b < |s| ==> |r[b]| == |s[b]|
    requires forall b, t :: 0 <= b < |s| && 0 <= t < |s[b]| ==> r[b][t] == [s[b][t][actions[b]]]
    ensures r == EvaluateQuantileAtAction(s, actions)
  {
    var g := EvaluateQuantileAtAction(s, actions);
    forall b | 0 <= b < |s| ensures r[b] == g[b] {
      assert |r[b]| == |g[b]|;
      forall t | 0 <= t < |s[b]| ensures r[b][t] == g[b][t] {
      }
    }
  }

  /** Gathering a batch is gathering each part of it: the result for batch element b
      depends only on s[b] and actions[b]. */
  lemma GatherSplits(s1: seq<seq<seq<real>>>, a1: seq<int>, s2: seq<seq<seq<real>>>, a2: seq<int>)
    requires |s1| == |a1| && ActionsInRange(s1, a1)
    requires |s2| == |a2| && ActionsInRange(s2, a2)
    ensures |s1 + s2| == |a1 + a2| && ActionsInRange(s1 + s2, a1 + a2)
    ensures EvaluateQuantileAtAction(s1 + s2, a1 + a2)
         == EvaluateQuantileAtAction(s1, a1) + EvaluateQuantileAtAction(s2, a2)
  {
    RangeSplits(s1, a1, s2, a2);
    var s, a := s1 + s2, a1 + a2;
    var g1, g2 := EvaluateQuantileAtAction(s1, a1), EvaluateQuantileAtAction(s2, a2);
    var q := g1 + g2;
    forall b | 0 <= b < |s|
      ensures |q[b]| == |s[b]|
      ensures forall t :: 0 <= t < |s[b]| ==> q[b][t] == [s[b][t][a[b]]]
    {
      if b < |s1| {
        assert q[b] == g1[b] && s[b] == s1[b] && a[b] == a1[b];
      } else {
        assert q[b] == g2[b - |s1|] && s[b] == s2[b - |s1|] && a[b] == a2[b - |s1|];
      }
    }
    GatherUnique(s, a, q);
  }
}
