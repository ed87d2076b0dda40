# Path-dependent option payoffs

A model of the payoff rules of the path-dependent option contracts of the
Options-Payoff-Lab library (`core/exotic.py`): the arithmetic Asian option,
the barrier option (up/down × knock-in/knock-out × call/put) and the lookback
option (fixed or floating strike, call or put). Each contract is an immutable
value holding its constructor parameters, with the constructors' defaults
(`premium = 0`, `is_call = true`, knock-in, up barrier, floating lookback).
Each payoff is a pure function of the contract and a non-empty price path of
reals, computed from the path's maximum, minimum, arithmetic mean and last
element, which are defined by recursion over the path.

Files:

- `optional.dfy` — `Maybe` (for the lookback's possibly absent strike) and `Result`. `Maybe` is
  the optional-value type; it is unrelated to the library's contract base class `Option`.
- `path.dfy` — module `PricePath`: `Max`, `Min`, `Sum`, `Mean`, `Last` over a path.
- `exotic.dfy` — module `Exotic`: the contracts, their payoffs and the lemmas about them.
- `scenario.dfy` — module `Scenario`: the sample path `[100, 102, 104, 108, 107, 112, 115, 113, 110, 112]`
  with strike 105, expiry 1 and barrier 114 used by the library's demonstration script.

Numbers are Dafny `real`s, so every comparison and subtraction is exact.
Every payoff requires a non-empty path (see "## Left out").

The contract datatypes model the constructors' parameter sets:
`Exotic.AsianOption` is `AsianOption.__init__` (core/exotic.py:16-19),
`Exotic.BarrierOption` is `BarrierOption.__init__` (core/exotic.py:45-50) and
`Exotic.LookBackOption` is `LookBackOption.__init__` (core/exotic.py:88-91).
Each has the same fields and the same default values. The string tags become
the enumerations `AverageType` and `StrikeType`, and the lookback strike is a `Maybe<real>`.

## Model

| member | source | states |
|---|---|---|
| `PricePath.Max` | core/exotic.py:55 | the path maximum is one of the observations and bounds every observation from above |
| `PricePath.Min` | core/exotic.py:57 | the path minimum is one of the observations and bounds every observation from below |
| `PricePath.SumAtLeast` | core/exotic.py:29 | the total of the path is at least its length times any common lower bound of the observations |
| `PricePath.SumAtMost` | core/exotic.py:29 | the total of the path is at most its length times any common upper bound of the observations |
| `PricePath.Mean` | core/exotic.py:29 | the arithmetic mean of the path lies between its minimum and maximum |
| `PricePath.Last` | core/exotic.py:70 | the terminal price is an observation lying between the path's minimum and maximum |
| `Exotic.PositivePart` | core/exotic.py:34 | `max(0, x)` is non-negative, at least `x`, and equals either 0 or `x` |
| `Exotic.Vanilla` | core/exotic.py:69-72 | the vanilla terminal payoff is non-negative, positive exactly when in the money, and at least the signed intrinsic value |
| `Exotic.VanillaParity` | core/exotic.py:69-72 | call payoff minus put payoff on the same strike and price equals price minus strike |
| `Exotic.VanillaMonotone` | core/exotic.py:69-72 | the call payoff grows and the put payoff shrinks as the reference price rises |
| `Exotic.Average` | core/exotic.py:28-29 | the arithmetic average of the path lies between its extrema |
| `Exotic.AsianDefaults` | core/exotic.py:16-19 | an Asian contract built from strike and expiry alone has premium 0, is a call and averages arithmetically |
| `Exotic.AsianPayoff` | core/exotic.py:22-36 | the Asian payoff is non-negative and positive exactly when the mean is strictly above (call) or below (put) the strike |
| `Exotic.AsianParity` | core/exotic.py:33-36 | Asian call minus Asian put equals mean minus strike |
| `Exotic.BarrierDefaults` | core/exotic.py:45-50 | a barrier contract built from strike, expiry and barrier alone has premium 0 and is an up-and-in call |
| `Exotic.HasHitBarrier` | core/exotic.py:54-57 | the barrier is hit iff some observation is at or above it (up) or at or below it (down): touching is inclusive |
| `Exotic.IsActive` | core/exotic.py:62-65 | a knock-in is active iff some observation touches the barrier, a knock-out iff none does (with `KnockInOutComplementary`: never both) |
| `Exotic.BarrierPayoff` | core/exotic.py:52-74 | the barrier payoff is 0 or the vanilla terminal payoff, so lies between the two, and a positive payoff means knock-in iff the barrier was hit |
| `Exotic.KnockInOutComplementary` | core/exotic.py:62-65 | for the same barrier exactly one of the knock-in and knock-out contract is active |
| `Exotic.KnockInPlusKnockOut` | core/exotic.py:62-74 | knock-in payoff plus knock-out payoff equals the vanilla terminal payoff |
| `Exotic.TouchIsInclusive` | core/exotic.py:54-57 | an observation exactly at the barrier counts as a touch, up or down |
| `Exotic.UpAndOutPaysOnlyBelowBarrier` | core/exotic.py:52-74 | an up-and-out contract that pays anything had every observation strictly below the barrier |
| `Exotic.DownAndOutPaysOnlyAboveBarrier` | core/exotic.py:52-74 | a down-and-out contract that pays anything had every observation strictly above the barrier |
| `Exotic.LookBackDefaults` | core/exotic.py:88-91 | a lookback contract built from strike and expiry alone has premium 0 and is a floating-strike call |
| `Exotic.LookBackPayoff` | core/exotic.py:93-103 | the lookback payoff fails exactly for a fixed-strike contract with no strike, and is otherwise non-negative; its value is pinned by `FixedIsBestObservation` and `FloatingIsVanillaAtExtreme` |
| `Exotic.FloatingNeedsNoClamp` | core/exotic.py:99-103 | the floating-strike payoff, computed without a clamp, is unchanged by clamping at zero |
| `Exotic.FloatingIgnoresStrike` | core/exotic.py:99-103 | the floating-strike payoff is the same whatever strike, or none, the contract holds |
| `Exotic.FloatingZeroIffTerminalExtreme` | core/exotic.py:99-103 | a floating call pays 0 iff the terminal price is the path minimum, a floating put iff it is the path maximum |
| `Exotic.FixedDominatesVanilla` | core/exotic.py:94-98 | a fixed-strike lookback pays at least the vanilla terminal payoff on its strike |
| `Exotic.FixedIsBestObservation` | core/exotic.py:94-98 | a fixed-strike lookback pays at least the vanilla payoff of every observation against its strike, and exactly that of some observation: the best observation over the path |
| `Exotic.FloatingIsVanillaAtExtreme` | core/exotic.py:99-103 | a floating-strike lookback pays the vanilla payoff of the terminal price against a strike replaced by the path minimum (call) or maximum (put) |
| `Exotic.FixedDominatesAsian` | core/exotic.py:94-98 | a fixed-strike lookback pays at least the arithmetic Asian contract on the same strike and direction |
| `Exotic.AsianDependsOnlyOnMean` | core/exotic.py:28-36 | paths with equal means give equal Asian payoffs |
| `Exotic.BarrierDependsOnlyOnExtremaAndLast` | core/exotic.py:54-74 | paths with equal maximum, minimum and terminal price give equal barrier payoffs |
| `Exotic.LookBackDependsOnlyOnExtremaAndLast` | core/exotic.py:93-103 | paths with equal maximum, minimum and terminal price give equal lookback payoffs |
| `Scenario.PathMax` | main.py:9 | the sample path's maximum is 115 |
| `Scenario.PathMin` | main.py:9 | the sample path's minimum is 100 |
| `Scenario.PathMean` | main.py:9 | the sample path's mean is 108.3 |
| `Scenario.PathSummary` | main.py:9 | the sample path's maximum, minimum, mean and last price are 115, 100, 108.3 and 112 |
| `Scenario.UpAndOutCallKnockedOut` | main.py:24-25 | the up-and-out call with strike 105 and barrier 114 is knocked out by the 115 observation and pays 0 |
| `Scenario.UpAndInCallPaysVanilla` | main.py:9-14 | the up-and-in call on the same barrier pays the vanilla 112 - 105 = 7 |
| `Scenario.ArithmeticAsianCallPays` | main.py:21 | the arithmetic Asian call with strike 105 pays 3.3 |
| `Scenario.FixedLookBackCallPays` | main.py:27 | the fixed-strike lookback call with strike 105 pays 10 |
| `Scenario.FloatingLookBackCallPays` | main.py:28 | the floating-strike lookback call built with no strike pays 12 |

## Left out

- The empty path: `np.max`, `np.min` and `spot[-1]` raise on an empty path, so the barrier and lookback payoffs fail there, while the Asian payoff's `np.mean` returns NaN (with a warning) and the payoff is NaN. The model excludes the empty path from every payoff with `requires |spot| > 0`.
- The geometric Asian average (core/exotic.py:30-31): it needs the logarithm and exponential, which the model's real arithmetic lacks; `AverageType` has only `Arithmetic`, and the geometric contract of main.py:22 is not modelled.
- Unrecognised `average_type` or `type_option` strings: the source then fails on an unbound average or returns nothing; the model's tags are closed enumerations, so such contracts cannot be built.
- The strike of the Asian and barrier contracts is a plain real: the source always supplies a number there, and what an absent strike would do depends on the base class, which is not part of this model.
- A fixed-strike lookback without a strike is modelled as the error `MissingStrike`, where the source would fail with a type error when subtracting.
- The `Option` base class (`core/base.py`), its strike handling and its net profit-and-loss method `calculate_pnl` (main.py:53) are not part of this model; `premium` and `expiry` are carried as fields but no payoff reads them.
- The vanilla `CallOption`/`PutOption` (`core/vanilla.py`) are not part of this model. The `ChooserOption`, `BinaryOption` and `ForwardStartOption` contracts that main.py:3 imports from `core.exotic` are not defined in core/exotic.py (it ends with the lookback contract), so that import cannot succeed against it; they are not modelled.
- Floating-point and numpy scalar behaviour: payoffs are exact reals, so the Asian call on the sample path is exactly 3.3 rather than a rounded float.
- The demonstration script's console table, category labels, plotting import and per-contract error reporting (main.py:4, main.py:40-57).
