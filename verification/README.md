# Headroom propagation model in Dafny

This project models the headroom engine of the correlator headroom model: a
linear chain of stages through which one data rate flows. A stage is either a
*scale* (multiply by a ratio) or a *limit* (cap at a ceiling, possibly
disabled, with an optional label). A `HeadroomModel` checks the shape of the
chain when it is built and can disable every limit whose label lacks a given
substring. On demand it seeds a value (the first ceiling, or the sentinel
`1e20`) and runs it forward through the stages to the achievable output. It
then runs that output backward through the reversed stages, stores the n+1
boundary values in forward order, and raises if any of them is near the
sentinel. `r_in_max` and `r_out_max` are the first and last stored values.

Values are Dafny `real`s. The sentinel `1e20` and the tolerance `1e-10` are
real constants (`Cells.DefaultMax`, `Cells.DiffChk`). Exceptions become the
`Types.Error` cases inside a `Types.Result`. The lazy cache is explicit state:
`Cache.CachedValues` takes a model and returns the model as it is afterwards
together with the result.

Files:
- `types.dfy`: `Option`, `Error`, `Result`.
- `cells.dfy`: stages, their constructors, the forward step `VOut` and the backward step `VIn`.
- `substrings.dfy`: the substring test the label filter uses.
- `pipeline.dfy`: the model record, its constructor, the label filter and `GetLimits`.
- `propagation.dfy`: the seed, the forward and backward traces, the stored values and the overflow test.
- `cache.dfy`: the propagation loops as methods, the cache and the accessors.
- `chain.dfy`: what propagation computes over exact arithmetic.
- `scenarios.dfy`: the chains of `test.py` and the construction quirks.

The model keeps these behaviours of the code:
- **Stale values after an overflow.** `_propagate_model` assigns
  `self.values` before the overflow check (model.py:88-92). When that check
  raises, the values stay cached. The next `cached_values()` call without
  `reload` returns them without raising (`Cache.OverflowLeavesValuesCached`).
- **Zero first ceiling.** The seed falls back to the sentinel whenever the
  first ceiling is falsy, which includes a ceiling of `0`, not only a missing
  one (`Scenarios.ZeroFirstCeiling`).
- **Ratios are not checked.** The code accepts any ratio. A zero ratio
  makes the backward step divide by zero, which the model reports as
  `DivisionByZero`. A negative ratio is carried through unchanged.
- **Endpoints checked before filtering.** The first and last stages are
  checked before the filter runs, so filtering can disable either one
  afterwards (`Scenarios.FilterUnboundsCheckedEndpoint`).
- **Filtered-out labels are dropped.** A limit removed by the filter
  becomes `Limit(-1)`, an unbounded limit with no label. This also applies
  to an unbounded limit whose label matches.

## Model

| member | source | states |
|---|---|---|
| `Cells.MakeCell` | correlator_headroom_model/model.py:11-16 | A cell is built exactly when one of ratio and ceiling is given. A negative ceiling is stored as unbounded, so no constructed ceiling is negative. A scale never has a ceiling, and a limit keeps its label. |
| `Cells.MakeScale` | correlator_headroom_model/model.py:40-43 | `Scale(r)` is a stage with no ceiling. It fails when the ratio is missing. |
| `Cells.MakeLimit` | correlator_headroom_model/model.py:49-52 | `Limit(max, label)` is a limit that keeps its label. It is bounded exactly when `max >= 0`, and then its ceiling is `max` itself. It fails when `max` is missing. |
| `Cells.VOut` | correlator_headroom_model/model.py:30-37 | A scale multiplies by its ratio. A bounded limit's output is at most its ceiling and at most its input, and equals one of the two. A disabled limit passes its input through. |
| `Cells.VIn` | correlator_headroom_model/model.py:18-28 | A scale's result times the ratio gives back the output. It fails exactly when the ratio is zero. A bounded limit fails exactly when the output exceeds the ceiling by more than 1e-10. Otherwise the result is at most the ceiling: the output itself when it is within the ceiling, else the ceiling. A disabled limit passes the value through. |
| `Cells.BackwardAfterForward` | correlator_headroom_model/model.py:18-37 | The backward step inverts the forward step. What a stage emits can always be traced back, and running the recovered input forward emits the same value. For a scale the recovered input is the original. |
| `Cells.ForwardAfterBackward` | correlator_headroom_model/model.py:18-37 | A successful backward step run forward gives the requested output. In the snap case it gives the ceiling instead, at most 1e-10 below. |
| `Cells.VOutMonotone` | correlator_headroom_model/model.py:30-37 | With positive ratios every stage is monotone. A scale also reflects order. |
| `Cells.StepBack` | correlator_headroom_model/model.py:18-37 | Asking a stage for at most what it emitted from `v` never fails. The answer is at most `v`, and it runs forward to exactly the requested value. A limit returns that value unchanged. |
| `Substrings.ContainsIsSubstring` | correlator_headroom_model/model.py:69 | The search used for `filter_limit in label` succeeds exactly when the filter occurs at some offset of the label. |
| `Pipeline.FilterCell` | correlator_headroom_model/model.py:69 | The filter keeps a scale, and it keeps a bounded limit whose non-empty label contains the substring. Every other stage becomes an unbounded, unlabelled limit. |
| `Pipeline.ApplyFilter` | correlator_headroom_model/model.py:68-70 | Filtering keeps the stage count and keeps each stage the filter selects, in place. Every other position gets an unbounded limit. |
| `Pipeline.NewHeadroomModel` | correlator_headroom_model/model.py:62-70 | Construction succeeds exactly for chains of at least 3 stages whose first and last stages carry a ceiling. Each error names the first check that fails. The checks run before filtering. An absent or empty filter changes nothing, and a non-empty one filters every stage. The cache starts empty. |
| `Pipeline.GetLimits` | correlator_headroom_model/model.py:99-100 | There is one entry per boundary, with nothing before the first stage. Every other entry is present exactly when its stage is a bounded limit, and it is that ceiling. |
| `Pipeline.FilterIdempotent` | correlator_headroom_model/model.py:68-70 | Filtering twice by the same substring is the same as filtering once. |
| `Pipeline.FilterWithoutMatchUnboundsAll` | correlator_headroom_model/model.py:68-70 | A substring found in no label leaves every scale in place and disables every limit. |
| `Propagation.Seed` | correlator_headroom_model/model.py:73-77 | The seed is never zero. It is the first ceiling when that ceiling is present and non-zero, and the sentinel otherwise. |
| `Propagation.ForwardTrace` | correlator_headroom_model/model.py:79-81 | The forward run has n+1 boundary values. It starts at the seed, and each value is the previous one passed through its stage. |
| `Propagation.BackwardTrace` | correlator_headroom_model/model.py:83-88 | A successful backward run has n+1 values and ends at the requested output. Each stage maps its right boundary back to its left one. A failure is a saturation or a zero division. |
| `Propagation.BoundaryValues` | correlator_headroom_model/model.py:72-88 | The stored values have n+1 entries, and the last is the output the forward pass reaches from the seed. |
| `Propagation.BackwardTraceExact` | correlator_headroom_model/model.py:83-88 | The backward pass is determined: any chain of successful backward steps that ends at an output is exactly what the pass returns from it. |
| `Propagation.BackwardTraceSuffixError` | correlator_headroom_model/model.py:85-87 | The pass runs from the last stage, so a failure on a later suffix is the failure of the whole pass. |
| `Cache.ForwardPass` | correlator_headroom_model/model.py:73-81 | The forward loop from the seed returns the achievable output. That output is at most the last stage's ceiling. |
| `Cache.BackwardPass` | correlator_headroom_model/model.py:83-88 | The loop over the reversed stages, with its appended list reversed at the end, returns exactly the declarative backward trace, including which error is raised. |
| `Cache.AnyOverflow` | correlator_headroom_model/model.py:90-92 | The scan reports exactly whether some stored value is at or above `1e20 - 1e-10`. |
| `Cache.PropagateModel` | correlator_headroom_model/model.py:72-92 | The loop implementation changes the model and raises exactly as `Cache.Propagated` says. When it does not raise, n+1 values are stored. |
| `Cache.Propagated` | correlator_headroom_model/model.py:72-92 | If the backward pass fails, the model is untouched. Otherwise the values are stored whether or not the check raises. It raises `MaxExceeded` exactly when a stored value is at or above `1e20 - 1e-10`, so a run that does not raise stores n+1 values, all below that bound. |
| `Cache.CachedValues` | correlator_headroom_model/model.py:94-97 | The call reads the cache untouched unless `reload` is set or nothing is cached. A recomputed success is the propagation result with no value near the sentinel. A recomputed failure is either a backward failure with the model untouched, or an overflow with the values left cached. |
| `Cache.GetRInMax` | correlator_headroom_model/model.py:102-103 | `r_in_max` fails exactly when `cached_values()` fails. Otherwise it is the first cached value. |
| `Cache.GetROutMax` | correlator_headroom_model/model.py:105-106 | `r_out_max` fails exactly when `cached_values()` fails. Otherwise it is the last cached value. |
| `Cache.CachedValuesSound` | correlator_headroom_model/model.py:94-97 | Every call keeps the cache holding nothing or the propagation result. From such a cache, every value returned is that result, with n+1 entries. |
| `Cache.NewModelCacheSound` | correlator_headroom_model/model.py:60-70 | A new model has nothing cached, so its first call propagates. |
| `Cache.CachedValuesIdempotent` | correlator_headroom_model/model.py:94-97 | After a successful call, a second call without `reload` returns the same values and leaves the model unchanged. |
| `Cache.OverflowLeavesValuesCached` | correlator_headroom_model/model.py:84-97 | When the overflow check fails, the call raises, but the next call without `reload` returns the overflowing values. |
| `Chain.ForwardMonotone` | correlator_headroom_model/model.py:79-81 | With positive ratios, a larger input gives a larger value at every boundary. |
| `Chain.ChainIsForwardTrace` | correlator_headroom_model/model.py:79-81 | A sequence that each stage maps onto its successor is the forward run from its first element. |
| `Chain.BackwardFollowsForward` | correlator_headroom_model/model.py:80-88 | With positive ratios, the backward pass never fails from any output up to what the forward run reached. It stays at or below that run at every boundary, and each stage maps it onto its next value. Every limit passes it through unchanged, so the 1e-10 snap never fires. |
| `Chain.ChainConsistency` | correlator_headroom_model/model.py:72-92 | With positive ratios, propagation succeeds. The stored values are the forward run from the first of them and never exceed the forward run from the seed, so the first value is at most the seed. The last value is the achievable output. Each bounded limit passes its value unchanged, at or below its ceiling. |
| `Chain.NoClipBelowBackward` | correlator_headroom_model/model.py:80-88 | Take an input that no limit clips and that starts at or below `v`. It is at or below the start of the backward trace from any output between the two forward runs. |
| `Chain.FirstValueIsLargestUnclippedInput` | correlator_headroom_model/model.py:72-88 | With positive ratios, every input at or below the seed that no limit clips is at or below the first stored value. |
| `Chain.AllLimitsForward` | correlator_headroom_model/model.py:79-81 | A chain of bounded limits delivers the smaller of its input and its tightest ceiling. |
| `Chain.AllLimitsYieldMinimum` | correlator_headroom_model/model.py:72-88 | A chain made only of bounded limits stores its tightest ceiling at every boundary. |
| `Chain.UnboundedChainOverflows` | correlator_headroom_model/model.py:72-92 | With no bounded limit and no zero ratio, the stored values are the forward run from the sentinel, so the overflow check fails. |
| `Chain.ModelPropagationOnlyOverflows` | correlator_headroom_model/model.py:72-97 | With positive ratios, a constructed model's first call can fail only by overflow, with the values left cached. A success returns n+1 values below the bound that form the forward run from the first of them. |
| `Chain.RInMaxIsLargestUnclippedInput` | correlator_headroom_model/model.py:102-103 | With positive ratios, `r_in_max` is at most the seed and clipped by no limit. It is at least every input at or below the seed that no limit clips. |
| `Chain.ROutMaxIsAchievedOutput` | correlator_headroom_model/model.py:105-106 | With positive ratios, `r_out_max` is the output the forward pass reaches from the seed. It is also the output of running `r_in_max` forward. |
| `Chain.FilterWithoutMatchRaises` | correlator_headroom_model/model.py:62-92 | Filtering a well-formed chain by a substring no label contains, with no zero ratio, makes the first `cached_values()` call raise `MaxExceeded`. |
| `Scenarios.RejectedChains` | correlator_headroom_model/test.py:7-9 | `[Scale(1)]`, `[Limit(1)]` and `[Limit(1), Scale(10)]` are rejected as too short. A chain ending in a scale is rejected, and so is one starting with a disabled limit. `Limit(-1)` is unbounded. |
| `Scenarios.ScaleUpThenLimit` | correlator_headroom_model/test.py:10 | The constructor accepts `[Limit(10), Scale(2), Limit(1), Limit(2)]` without raising. Its first `cached_values()` stores `[0.5, 0.5, 1, 1, 1]`, and `r_in_max` is 0.5. |
| `Scenarios.InputLimitBinds` | correlator_headroom_model/test.py:11 | The constructor accepts `[Limit(0.1), Scale(2), Limit(1), Limit(2)]` without raising. Its first `cached_values()` stores `[0.1, 0.1, 0.2, 0.2, 0.2]`, and `r_in_max` is 0.1. |
| `Scenarios.DownstreamLimitBinds` | correlator_headroom_model/test.py:12 | The constructor accepts `[Limit(10), Scale(2), Limit(1), Limit(0.2)]` without raising. Its first `cached_values()` stores `[0.1, 0.1, 0.2, 0.2, 0.2]`, and `r_in_max` is 0.1. |
| `Scenarios.AttenuateThenLimit` | correlator_headroom_model/test.py:13 | The constructor accepts `[Limit(10), Scale(0.5), Limit(1), Limit(0.2)]` without raising. Its first `cached_values()` stores `[0.4, 0.4, 0.2, 0.2, 0.2]`, and `r_in_max` is 0.4. |
| `Scenarios.ZeroFirstCeiling` | correlator_headroom_model/model.py:73-77 | A zero first ceiling seeds with the sentinel, yet the zero ceiling still binds: every stored value is 0. |
| `Scenarios.FilterUnboundsCheckedEndpoint` | correlator_headroom_model/model.py:65-70 | A chain whose last limit's label does not match the filter is accepted, and that last stage is then disabled. |

## Left out

- `__repr__` of cells and models: these format floats as strings for display only.
- The `R` property: it only forwards to `get_r_in_max`, which `Cache.GetRInMax` models.
- `Cell(ratio=…, label=…)` can attach a label to a scale, but no code reads it, so a `Scale` carries none here.
- IEEE-754 rounding: values are exact reals. The 1e-10 snap is kept as written, and over exact arithmetic with positive ratios it never fires (`Chain.BackwardFollowsForward`).
- The type assertion on `filter_limit`: Dafny's types enforce it.
- Mutating a cell or a model's stage list after construction: the model treats both as immutable values.
- Concurrency around the lazy cache: the code is single-threaded.
- Plotting and the interactive dashboard (`representation.py`, `radio_dashboard.py`), the fixed radio-chain builder (`radio_model.py`) and packaging (`setup.py`): none of them is part of the headroom engine.
- The chain properties (`Chain.*`) are proved only for chains whose ratios are all positive. With a zero or negative ratio, the code gives no such guarantee. The model still computes exactly what the code does for those chains.
