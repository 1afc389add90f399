# Seesaw balance calculation

A Dafny model of the arithmetic at the heart of the sleep seesaw animation
script. The script takes a count of "good sleep" days and a count of "low
sleep" days. It turns them into three numbers that drive the animation:

- the signed tilt of the seesaw bar, `(good/total - low/total) * 20` degrees;
- a size factor for the "good" emoji;
- a size factor for the "low" emoji.

The side with the larger count grows by `final_size_change` (1.30 in the
script). The other side shrinks by its reciprocal. With equal counts, or
nothing counted at all, the bar stays level and both factors stay 1.0.

Everything is in `seesaw.dfy`, module `Seesaw`:

- `ComputeBalance` is the calculation as the script writes it. It sets the
  defaults, then overwrites them in the guarded branches, returning the three
  values as out-parameters.
- `Tilt`, `GoodSizeFactor`, `LowSizeFactor` and `BalanceOf` are the same
  calculation as pure functions. The lemmas are stated over them.
- `MaxTiltDegrees` is the constant 20 of the tilt formula. `DefaultFinalSizeChange`
  is the script's 1.30.

Counts are `nat`. The size change is a `real` that must be positive. All
arithmetic uses Dafny's exact reals.

## Model

| member | source | states |
|---|---|---|
| Seesaw.ComputeBalance | deepsleep_seesaw_animation.py:26-44 | the defaults-then-overwrite computation returns exactly `BalanceOf(good, low, change)`; its tilt lies in [-20, 20]; both factors are positive; the two factors multiply to exactly 1 |
| Seesaw.GoodSizeFactor | deepsleep_seesaw_animation.py:29-44 | the "good" factor is always one of 1.0, `final_size_change` or `1 / final_size_change`, so it is positive |
| Seesaw.LowSizeFactor | deepsleep_seesaw_animation.py:28-44 | the "low" factor is one of the same three values, is positive, and times the "good" factor gives exactly 1 |
| Seesaw.TiltClosedForm | deepsleep_seesaw_animation.py:32-36 | for a positive total, the difference of the two proportions times 20 equals the reference form `20 * (good - low) / (good + low)` |
| Seesaw.EmptyIsNeutral | deepsleep_seesaw_animation.py:26-31 | with both counts zero, the guard skips the division: tilt 0, both factors 1.0 |
| Seesaw.Tilt | deepsleep_seesaw_animation.py:26-36 | the guarded tilt is 0 whenever the counts are equal, both zero (the division guard) included |
| Seesaw.BalanceOf | deepsleep_seesaw_animation.py:26-44 | the whole result is the neutral (0, 1.0, 1.0) if and only if the two counts are equal |
| Seesaw.TiltBounded | deepsleep_seesaw_animation.py:31-36 | for all counts, `-20 <= tilt <= 20` |
| Seesaw.TiltSign | deepsleep_seesaw_animation.py:31-36 | the tilt is positive iff good > low, negative iff low > good, and zero iff the counts are equal (the zero-total guard included) |
| Seesaw.TiltMonotone | deepsleep_seesaw_animation.py:32-36 | for a fixed positive total, the tilt strictly increases with `good - low` |
| Seesaw.TiltRisesWithGood | deepsleep_seesaw_animation.py:31-36 | adding good days never lowers the tilt, and raises it strictly when the low count is positive |
| Seesaw.TiltFallsWithLow | deepsleep_seesaw_animation.py:31-36 | adding low days never raises the tilt, and lowers it strictly when the good count is positive |
| Seesaw.SwapMirrors | deepsleep_seesaw_animation.py:36-44 | swapping the two counts negates the tilt and exchanges the two size factors |
| Seesaw.DominantSideGrows | deepsleep_seesaw_animation.py:39-44 | the side with the strictly larger count gets `final_size_change`; the other side gets `1 / final_size_change` |
| Seesaw.ScaleInvariant | deepsleep_seesaw_animation.py:32-44 | multiplying both counts by any k > 0 leaves the tilt and both factors unchanged |
| Seesaw.DefaultScenario | deepsleep_seesaw_animation.py:9-44 | the script's own inputs (4 good, 6 low, 1.30) give tilt -4, low factor 1.3 and good factor 10/13 |

## Left out

- Reading the two emoji images and Base64-encoding them (`get_image_base64` and its calls): file I/O and a library call with no logic of their own.
- The HTML, CSS and JavaScript template that the three values are substituted into, including the browser transitions and the `setTimeout` trigger: text emission with no computation.
- The module-level driver that writes `animated_seesaw.html` and prints two messages: file output and console output.
- `initial_emoji_size` (60 pixels): it is only substituted into the CSS and takes no part in the calculation.
- IEEE double rounding and Python's float formatting of the embedded values: the model uses exact reals, so `1 / 1.30` is exactly 10/13 and the factors multiply to exactly 1. In the script the product is 1 only up to rounding.
- Negative counts: the script neither handles nor rejects them (for instance `good = -low` makes the total 0). The model takes counts as `nat`.
- The tilt's maximum is the fixed constant 20 of deepsleep_seesaw_animation.py:36; the model does not make it a parameter.
- In the script the initial tilt is the integer `0` and the computed tilt a float; the model uses one real-valued tilt for both.
