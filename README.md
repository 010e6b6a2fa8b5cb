# Training-loop helpers of an IQN agent, modelled in Dafny

This project models the stateful and index-level helpers of `fqf_iqn/utils.py`, the utility module of
an implicit-quantile-network (IQN) reinforcement-learning agent:

- `evaluate_quantile_at_action` picks, for each batch element, the quantile values at the action
  that was taken. It turns a `(batch, num_taus, num_actions)` tensor into a `(batch, num_taus, 1)` tensor.
  The actions are a `(batch, 1)` tensor, modelled as one index per batch element.
  Module `Quantiles` (quantiles.dfy) models the tensors as nested sequences.
- `RunningMeanStats` keeps the last `n` samples in a `deque(maxlen=n)` and reports their mean.
  Module `RunningMean` (running_mean.dfy) gives it a class with a sequence field and a ghost
  history of every appended sample.
- `LinearAnneaer` (the source's spelling) anneals a value linearly from `start_value` to
  `end_value` over `num_steps` steps. Module `Annealer` (annealer.dfy) checks the class against a
  reference schedule, `Interpolate`.
- `LRSweeper` steps through a list of learning rates. Every `interval` steps it moves to the next
  rate and writes it into every parameter group of the optimizer. Module `Sweeper` (sweeper.dfy)
  models the optimizer's parameter groups as an `array<real>` that `SetLr` overwrites in a loop.

Each class has a `Valid()` predicate. Its methods state the whole new state in terms of the old one,
and pure functions plus lemmas state what the source promises about them.
`Sweeper.Advance` is a pure function for one call of `step` on the two counters.
`Annealer.StepsAfter` and `Sweeper.AdvanceTimes` give the state after `k` calls.
Samples, rates and annealed values are `real`. The source uses Python floats, and its division
`/` in `LinearAnneaer` is true division.

The dead branch at line 114 of `fqf_iqn/utils.py` (`if self.index == self.n - 1: pass`) looks like
an unfinished guard that would keep the index at the last rate. The code does not do this: the
branch does nothing. The model follows the code. `Step` demands of its caller
that the index stay inside the list, and the guard as evidently intended is a separate, corrected
method (see Findings).

## Model

| member | source | states |
|---|---|---|
| `Quantiles.EvaluateQuantileAtAction` | fqf_iqn/utils.py:49-61 | needs equal batch sizes and every action inside the action axis; the result has one entry per batch element, the same number of rows, and row t of element b is the single value `s[b][t][actions[b]]` |
| `Quantiles.GatherShape` | fqf_iqn/utils.py:52-61 | on a rectangular `(batch, num_taus, num_actions)` input with actions below `num_actions`, the gather is defined and has shape `(batch, num_taus, 1)` |
| `Quantiles.GatherUnique` | fqf_iqn/utils.py:59 | any nested sequence with the gather's shape and entries is the gather's result |
| `Quantiles.GatherSplits` | fqf_iqn/utils.py:56-59 | gathering a concatenated batch is concatenating the gathers of its parts: each element's result depends only on its own quantiles and action |
| `RunningMean.Mean` | fqf_iqn/utils.py:74 | np.mean of a non-empty buffer: the value that, taken once per sample, adds up to the samples' sum |
| `RunningMean.Window` | fqf_iqn/utils.py:68 | the window holds min(count, n) samples, and they are the last ones appended, in order |
| `RunningMean.WindowAppend` | fqf_iqn/utils.py:70-71 | appending to the window of a history gives the window of the extended history, so keeping only n samples loses nothing the deque needs |
| `RunningMean.MeanBounds` | fqf_iqn/utils.py:73-74 | the mean of a non-empty buffer lies between any lower and upper bound of its samples |
| `RunningMean.MeanOfConstant` | fqf_iqn/utils.py:73-74 | the mean of equal samples is that sample |
| `RunningMean.RunningMeanStats.constructor` | fqf_iqn/utils.py:66-68 | a fresh tracker has capacity n and an empty buffer |
| `RunningMean.RunningMeanStats.Append` | fqf_iqn/utils.py:70-71 | the buffer stays at most n long; below capacity the sample is added at the back and nothing else changes; at capacity the oldest sample is dropped and the new one goes at the back; with n = 0 nothing is kept |
| `RunningMean.RunningMeanStats.Get` | fqf_iqn/utils.py:73-74 | on a non-empty buffer, the mean of exactly the last min(count, n) samples appended |
| `Annealer.InterpolateEndpoints` | fqf_iqn/utils.py:87-88 | the schedule is the start value at step 0 and the end value at num_steps |
| `Annealer.InterpolateInRange` | fqf_iqn/utils.py:87-95 | for steps in [0, num_steps] the value stays between the start and end values |
| `Annealer.InterpolateMonotone` | fqf_iqn/utils.py:87-95 | the value moves monotonically from the start value towards the end value as steps grows |
| `Annealer.SlopeForm` | fqf_iqn/utils.py:87-95 | the source's `a * steps + b`, with `a = (end - start) / num_steps` and `b = start`, equals `start + (end - start) * steps / num_steps` |
| `Annealer.StepsAfterIsClamped` | fqf_iqn/utils.py:90-91 | k calls of step from a counter at most num_steps leave it at min(num_steps, steps + k) |
| `Annealer.EndValueIsKept` | fqf_iqn/utils.py:90-95 | from a fresh annealer, after num_steps or more calls of step the counter is num_steps and the value is the end value |
| `Annealer.LinearAnneaer.constructor` | fqf_iqn/utils.py:79-88 | needs num_steps > 0; steps starts at 0 and slope and intercept are fixed |
| `Annealer.LinearAnneaer.Step` | fqf_iqn/utils.py:90-91 | steps becomes min(num_steps, steps + 1): it never decreases, never passes num_steps, and stays put at the cap |
| `Annealer.LinearAnneaer.Get` | fqf_iqn/utils.py:93-95 | needs 0 < steps (steps <= num_steps always holds); returns the reference schedule at the current step, the end value at num_steps, and a value between start and end |
| `Sweeper.Advance` | fqf_iqn/utils.py:117-119 | one call of step as written: steps grows by one, the index moves by at most one, and index == steps / interval is kept |
| `Sweeper.CountersAfter` | fqf_iqn/utils.py:108-119 | from steps == index == 0, k calls of step give steps == k and index == k / interval |
| `Sweeper.SafeStepBound` | fqf_iqn/utils.py:117-123 | a step count x sits at an index inside a list of n rates exactly when x < n * interval, so a step is safe exactly when (steps + 1) / interval < n, that is, steps + 1 < n * interval |
| `Sweeper.UnguardedIndexEscapes` | fqf_iqn/utils.py:113-120 | as written, n * interval calls of step from a fresh sweeper put the index at n, outside the list |
| `Sweeper.AdvanceGuarded` | fqf_iqn/utils.py:113-119 | one call of step with the intended guard: at the last rate the counters are unchanged, and index == steps / interval together with index < n is kept |
| `Sweeper.GuardedCountersAfter` | fqf_iqn/utils.py:114-115 | with the intended guard, k calls of step give steps == min(k, (n - 1) * interval) and index == steps / interval |
| `Sweeper.GuardedIndexInRange` | fqf_iqn/utils.py:114-115 | with the intended guard the index never leaves the list of n > 0 rates |
| `Sweeper.LRSweeper.constructor` | fqf_iqn/utils.py:100-111 | needs interval > 0 and a non-empty list of rates; starts at steps == index == 0 with lr and every parameter group at the first rate |
| `Sweeper.LRSweeper.SetLr` | fqf_iqn/utils.py:122-126 | needs index < n; afterwards lr and every parameter group's rate are `values[index]`; steps and index are unchanged |
| `Sweeper.LRSweeper.Step` | fqf_iqn/utils.py:113-120 | needs steps + 1 < n * interval, without which set_lr's assertion fails; the counters advance as one call of step; lr and every group equal `values[index]` afterwards; off an interval boundary lr and the groups are untouched |
| `Sweeper.LRSweeper.StepGuarded` | fqf_iqn/utils.py:113-120 | the intended step: no precondition; at the last rate nothing changes, otherwise it acts as Step; the invariant, with index < n, is kept |
| `Sweeper.LRSweeper.Get` | fqf_iqn/utils.py:128-129 | returns lr, which is `values[index]` and the rate of every parameter group; it changes nothing |

## Left out

- `update_params` (fqf_iqn/utils.py:6-14) is not modelled. It only calls autograd's `backward`, gradient-norm clipping and the optimizer's step, which are library code with no visible semantics.
- `disable_gradients` (fqf_iqn/utils.py:17-20) is not modelled. It only clears `requires_grad` on library tensors.
- `calculate_huber_loss` and `calculate_quantile_huber_loss` (fqf_iqn/utils.py:23-46) are not modelled. They are floating-point tensor arithmetic with broadcasting, `detach` and reductions.
- Floating point: samples, rates and annealed values are exact reals, so rounding and NaN are not modelled.
- `RunningMean.RunningMeanStats.Get`: the source returns NaN for an empty buffer; the model requires a non-empty buffer instead.
- `RunningMean.RunningMeanStats.constructor`: the source's default capacity `n=10` (fqf_iqn/utils.py:66) is not modelled; Dafny has no default arguments, so callers always pass `n`.
- `RunningMeanStats` with `n=None` (an unbounded deque) or a negative `n` (which raises) is not modelled. The capacity is a `nat`.
- The `isinstance` checks in `LinearAnneaer.__init__` and `LRSweeper.__init__` are carried by the parameter types.
- `Sweeper.LRSweeper.Step`: the state after set_lr's assertion fails is not modelled. There steps and index have already moved and the rates are stale. The step is required to be safe instead.
- Optimizer internals other than each parameter group's learning rate are not modelled, and neither is other code writing to those rates between calls.
- `Quantiles.EvaluateQuantileAtAction`: `actions` is taken to be a `(batch, 1)` tensor, flattened to one index per batch element. Other shapes, which the `expand` at fqf_iqn/utils.py:56 treats differently, are not modelled: a 1-D `(batch,)` tensor and a `(batch, num_taus)` tensor.
- `Quantiles.EvaluateQuantileAtAction` accepts ragged nested sequences as well as rectangular ones. A tensor is always rectangular, and `GatherShape` states the rectangular case. Device and dtype are not modelled.

## Findings

| source | as written | input that shows it | evidently intended | confidence | as-written member | corrected member |
|---|---|---|---|---|---|---|
| fqf_iqn/utils.py:113-120 | the guard `if self.index == self.n - 1: pass` does nothing, so `step` keeps moving the index every `interval` steps | rates `[0.1, 0.01]`, interval 2: the fourth call of `step` sets index to 2 and set_lr's assertion `0 <= index < n` fails | at the last rate, `step` leaves the sweeper unchanged, so the index stays inside the list | medium (the dead branch suggests a guard; not executed) | `Sweeper.UnguardedIndexEscapes` | `Sweeper.LRSweeper.StepGuarded` |
