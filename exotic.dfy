/**
 * Path-dependent option contracts: arithmetic Asian, barrier and lookback.
 * Every contract is an immutable value built once from its parameters; its
 * payoff is a pure function of those parameters and a non-empty price path,
 * reading only the path's maximum, minimum, mean and terminal price.
 */
module Exotic {
  import opened Optional
  import opened PricePath

  /** `max(0, x)`: the positive part of a real number. */
  function PositivePart(x: real): (r: real)
    ensures r >= 0.0 && r >= x
    ensures r == 0.0 || r == x
  {
    if x >= 0.0 then x else 0.0
  }

  /** Clamping a non-negative number at zero leaves it unchanged. */
  lemma PositivePartOfNonNegative(x: real)
    requires x >= 0.0
    ensures PositivePart(x) == x
  {
  }

  /**
   * The vanilla payoff of a reference price against a strike: `max(0, S - K)`
   * for a call and `max(0, K - S)` for a put. It is positive exactly when the
   * contract is in the money.
   */
  function Vanilla(isCall: bool, strike: real, price: real): (r: real)
    ensures r >= 0.0
    ensures r > 0.0 <==> (if isCall then price > strike else price < strike)
    ensures r >= (if isCall then price - strike else strike - price)
  {
    if isCall then PositivePart(price - strike) else PositivePart(strike - price)
  }

  /** Call minus put on the same strike and price is the price minus the strike. */
  lemma VanillaParity(strike: real, price: real)
    ensures Vanilla(true, strike, price) - Vanilla(false, strike, price) == price - strike
  {
    if price >= strike {
      assert Vanilla(false, strike, price) == 0.0;
    } else {
      assert Vanilla(true, strike, price) == 0.0;
    }
  }

  /** A call pays more for a higher reference price, a put for a lower one. */
  lemma VanillaMonotone(isCall: bool, strike: real, lower: real, higher: real)
    requires lower <= higher
    ensures isCall ==> Vanilla(isCall, strike, lower) <= Vanilla(isCall, strike, higher)
    ensures !isCall ==> Vanilla(isCall, strike, higher) <= Vanilla(isCall, strike, lower)
  {
  }

  // ---------------------------------------------------------------- Asian

  /** The averaging rule of an Asian contract (only the arithmetic mean is modelled). */
  datatype AverageType = Arithmetic

  /** An Asian contract: its parameters as given to the constructor, with the same defaults. */
  datatype AsianOption = AsianOption(
    strike: real,
    expiry: real,
    premium: real := 0.0,
    isCall: bool := true,
    averageType: AverageType := Arithmetic)

  /**
   * An Asian contract built from a strike and an expiry alone has no premium,
   * is a call and averages arithmetically.
   */
  lemma AsianDefaults(strike: real, expiry: real)
    ensures AsianOption(strike, expiry) == AsianOption(strike, expiry, 0.0, true, Arithmetic)
  {
  }

  /** The reference average of the whole path under the given rule. */
  function Average(rule: AverageType, spot: seq<real>): (a: real)
    requires |spot| > 0
    ensures Min(spot) <= a <= Max(spot)
  {
    match rule
    case Arithmetic => Mean(spot)
  }

  /**
   * The Asian payoff: the vanilla payoff of the path's average against the
   * strike. It never goes below zero and is positive exactly when the average
   * is strictly on the holder's side of the strike.
   */
  function AsianPayoff(o: AsianOption, spot: seq<real>): (r: real)
    requires |spot| > 0
    ensures r >= 0.0
    ensures r > 0.0 <==> (if o.isCall then Mean(spot) > o.strike else Mean(spot) < o.strike)
  {
    Vanilla(o.isCall, o.strike, Average(o.averageType, spot))
  }

  /** The Asian call minus the Asian put on the same strike is the mean minus the strike. */
  lemma AsianParity(o: AsianOption, spot: seq<real>)
    requires |spot| > 0
    ensures AsianPayoff(o.(isCall := true), spot) - AsianPayoff(o.(isCall := false), spot)
            == Mean(spot) - o.strike
  {
    VanillaParity(o.strike, Mean(spot));
  }

  // ---------------------------------------------------------------- Barrier

  /** A barrier contract: its parameters as given to the constructor, with the same defaults. */
  datatype BarrierOption = BarrierOption(
    strike: real,
    expiry: real,
    barrier: real,
    premium: real := 0.0,
    isCall: bool := true,
    isKnockIn: bool := true,
    isUp: bool := true)

  /**
   * A barrier contract built from a strike, an expiry and a barrier alone has
   * no premium and is an up-and-in call.
   */
  lemma BarrierDefaults(strike: real, expiry: real, barrier: real)
    ensures BarrierOption(strike, expiry, barrier)
            == BarrierOption(strike, expiry, barrier, 0.0, true, true, true)
  {
  }

  /**
   * Whether the path touched the barrier. Touching is inclusive: an up barrier
   * is hit when some observation is at or above it, a down barrier when some
   * observation is at or below it.
   */
  function HasHitBarrier(o: BarrierOption, spot: seq<real>): (hit: bool)
    requires |spot| > 0
    ensures hit <==> exists i :: 0 <= i < |spot| &&
                       (if o.isUp then spot[i] >= o.barrier else spot[i] <= o.barrier)
  {
    if o.isUp then Max(spot) >= o.barrier else Min(spot) <= o.barrier
  }

  /**
   * A knock-in is alive once the barrier is hit, a knock-out only while it is
   * not: a knock-in is alive iff some observation touches the barrier.
   */
  function IsActive(o: BarrierOption, spot: seq<real>): (active: bool)
    requires |spot| > 0
    ensures active <==>
              (o.isKnockIn <==>
                 (exists i :: 0 <= i < |spot| &&
                    (if o.isUp then spot[i] >= o.barrier else spot[i] <= o.barrier)))
  {
    if o.isKnockIn then HasHitBarrier(o, spot) else !HasHitBarrier(o, spot)
  }

  /**
   * The barrier payoff: the vanilla payoff of the terminal price while the
   * contract is alive, exactly zero otherwise.
   */
  function BarrierPayoff(o: BarrierOption, spot: seq<real>): (r: real)
    requires |spot| > 0
    ensures 0.0 <= r <= Vanilla(o.isCall, o.strike, Last(spot))
    ensures r == 0.0 || r == Vanilla(o.isCall, o.strike, Last(spot))
    ensures r > 0.0 ==> (o.isKnockIn <==> HasHitBarrier(o, spot))
  {
    if IsActive(o, spot) then Vanilla(o.isCall, o.strike, Last(spot)) else 0.0
  }

  /** For one barrier, exactly one of the knock-in and the knock-out contract is alive. */
  lemma KnockInOutComplementary(o: BarrierOption, spot: seq<real>)
    requires |spot| > 0
    ensures IsActive(o.(isKnockIn := true), spot) != IsActive(o.(isKnockIn := false), spot)
  {
  }

  /**
   * The knock-in and the knock-out contract on the same barrier, direction,
   * strike and call/put split the vanilla payoff between them.
   */
  lemma KnockInPlusKnockOut(o: BarrierOption, spot: seq<real>)
    requires |spot| > 0
    ensures BarrierPayoff(o.(isKnockIn := true), spot) + BarrierPayoff(o.(isKnockIn := false), spot)
            == Vanilla(o.isCall, o.strike, Last(spot))
  {
    KnockInOutComplementary(o, spot);
  }

  /** An observation exactly at the barrier counts as a touch, in both directions. */
  lemma TouchIsInclusive(o: BarrierOption, spot: seq<real>, i: int)
    requires 0 <= i < |spot| && spot[i] == o.barrier
    ensures HasHitBarrier(o, spot)
  {
  }

  /** An up-and-out contract that pays anything saw every observation strictly below the barrier. */
  lemma UpAndOutPaysOnlyBelowBarrier(o: BarrierOption, spot: seq<real>)
    requires |spot| > 0 && o.isUp && !o.isKnockIn && BarrierPayoff(o, spot) > 0.0
    ensures forall i :: 0 <= i < |spot| ==> spot[i] < o.barrier
  {
  }

  /** A down-and-out contract that pays anything saw every observation strictly above the barrier. */
  lemma DownAndOutPaysOnlyAboveBarrier(o: BarrierOption, spot: seq<real>)
    requires |spot| > 0 && !o.isUp && !o.isKnockIn && BarrierPayoff(o, spot) > 0.0
    ensures forall i :: 0 <= i < |spot| ==> spot[i] > o.barrier
  {
  }

  // ---------------------------------------------------------------- Lookback

  /** Whether a lookback contract keeps its strike (`Fixe`) or replaces it by a path extreme (`Flottant`). */
  datatype StrikeType = Fixe | Flottant

  /** Why a payoff cannot be computed. */
  datatype PayoffError = MissingStrike

  /**
   * A lookback contract: its parameters as given to the constructor, with the
   * same defaults. The strike may be absent; only a fixed-strike contract reads it.
   */
  datatype LookBackOption = LookBackOption(
    strike: Maybe<real>,
    expiry: real,
    premium: real := 0.0,
    isCall: bool := true,
    typeOption: StrikeType := Flottant)

  /**
   * A lookback contract built from a strike and an expiry alone has no
   * premium and is a floating-strike call.
   */
  lemma LookBackDefaults(strike: Maybe<real>, expiry: real)
    ensures LookBackOption(strike, expiry) == LookBackOption(strike, expiry, 0.0, true, Flottant)
  {
  }

  /**
   * The lookback payoff. A fixed-strike call pays `max(0, max(path) - K)` and a
   * put `max(0, K - min(path))`; a floating-strike call pays
   * `last - min(path)` and a put `max(path) - last`, with no clamp. A
   * fixed-strike contract without a strike cannot be evaluated. Every payoff
   * that can be computed is non-negative.
   */
  function LookBackPayoff(o: LookBackOption, spot: seq<real>): (r: Result<real, PayoffError>)
    requires |spot| > 0
    ensures r.Err? <==> (o.typeOption == Fixe && o.strike.None?)
    ensures r.Ok? ==> r.value >= 0.0
  {
    match o.typeOption
    case Fixe =>
      (match o.strike
       case None => Err(MissingStrike)
       case Some(k) =>
         Ok(if o.isCall then PositivePart(Max(spot) - k) else PositivePart(k - Min(spot))))
    case Flottant =>
      Ok(if o.isCall then Last(spot) - Min(spot) else Max(spot) - Last(spot))
  }

  /** A floating-strike payoff would be unchanged by clamping it at zero. */
  lemma FloatingNeedsNoClamp(o: LookBackOption, spot: seq<real>)
    requires |spot| > 0 && o.typeOption == Flottant
    ensures LookBackPayoff(o, spot).Ok?
    ensures PositivePart(LookBackPayoff(o, spot).value) == LookBackPayoff(o, spot).value
  {
  }

  /** A floating-strike contract never reads its strike. */
  lemma FloatingIgnoresStrike(o: LookBackOption, spot: seq<real>, other: Maybe<real>)
    requires |spot| > 0 && o.typeOption == Flottant
    ensures LookBackPayoff(o.(strike := other), spot) == LookBackPayoff(o, spot)
  {
  }

  /**
   * A floating-strike call pays nothing exactly when the terminal price is the
   * path's minimum, and a put exactly when it is the path's maximum.
   */
  lemma FloatingZeroIffTerminalExtreme(o: LookBackOption, spot: seq<real>)
    requires |spot| > 0 && o.typeOption == Flottant
    ensures LookBackPayoff(o, spot).Ok?
    ensures LookBackPayoff(o, spot).value == 0.0 <==>
              forall i :: 0 <= i < |spot| ==>
                (if o.isCall then Last(spot) <= spot[i] else spot[i] <= Last(spot))
  {
  }

  /** A fixed-strike lookback pays at least the vanilla payoff of the terminal price. */
  lemma FixedDominatesVanilla(o: LookBackOption, spot: seq<real>)
    requires |spot| > 0 && o.typeOption == Fixe && o.strike.Some?
    ensures LookBackPayoff(o, spot).Ok?
    ensures LookBackPayoff(o, spot).value >= Vanilla(o.isCall, o.strike.value, Last(spot))
  {
    VanillaMonotone(o.isCall, o.strike.value, Min(spot), Last(spot));
    VanillaMonotone(o.isCall, o.strike.value, Last(spot), Max(spot));
  }

  /**
   * A fixed-strike lookback pays the best vanilla payoff over all
   * observations: at least the vanilla payoff of every observation, and
   * exactly that of some observation.
   */
  lemma FixedIsBestObservation(o: LookBackOption, spot: seq<real>)
    requires |spot| > 0 && o.typeOption == Fixe && o.strike.Some?
    ensures LookBackPayoff(o, spot).Ok?
    ensures forall i :: 0 <= i < |spot| ==>
              LookBackPayoff(o, spot).value >= Vanilla(o.isCall, o.strike.value, spot[i])
    ensures exists i :: 0 <= i < |spot| &&
              LookBackPayoff(o, spot).value == Vanilla(o.isCall, o.strike.value, spot[i])
  {
    var k := o.strike.value;
    forall i | 0 <= i < |spot|
      ensures LookBackPayoff(o, spot).value >= Vanilla(o.isCall, k, spot[i])
    {
      VanillaMonotone(o.isCall, k, Min(spot), spot[i]);
      VanillaMonotone(o.isCall, k, spot[i], Max(spot));
    }
    var extreme := if o.isCall then Max(spot) else Min(spot);
    var j :| 0 <= j < |spot| && spot[j] == extreme;
    assert LookBackPayoff(o, spot).value == Vanilla(o.isCall, k, spot[j]);
  }

  /**
   * A floating-strike lookback is the vanilla payoff of the terminal price
   * against a strike replaced by the path's extreme: the minimum for a call,
   * the maximum for a put.
   */
  lemma FloatingIsVanillaAtExtreme(o: LookBackOption, spot: seq<real>)
    requires |spot| > 0 && o.typeOption == Flottant
    ensures LookBackPayoff(o, spot)
            == Ok(Vanilla(o.isCall, if o.isCall then Min(spot) else Max(spot), Last(spot)))
  {
    var lo, hi, last := Min(spot), Max(spot), Last(spot);
    if o.isCall {
      PositivePartOfNonNegative(last - lo);
      assert Vanilla(true, lo, last) == last - lo;
    } else {
      PositivePartOfNonNegative(hi - last);
      assert Vanilla(false, hi, last) == hi - last;
    }
  }

  /** A fixed-strike lookback pays at least the Asian contract on the same strike and direction. */
  lemma FixedDominatesAsian(a: AsianOption, spot: seq<real>)
    requires |spot| > 0
    ensures LookBackPayoff(LookBackOption(Some(a.strike), a.expiry, a.premium, a.isCall, Fixe), spot).value
            >= AsianPayoff(a, spot)
  {
    VanillaMonotone(a.isCall, a.strike, Min(spot), Mean(spot));
    VanillaMonotone(a.isCall, a.strike, Mean(spot), Max(spot));
  }

  // ---------------------------------------------------------------- path summary

  /** Two paths with the same mean get the same Asian payoff. */
  lemma AsianDependsOnlyOnMean(a: AsianOption, s: seq<real>, t: seq<real>)
    requires |s| > 0 && |t| > 0 && Mean(s) == Mean(t)
    ensures AsianPayoff(a, s) == AsianPayoff(a, t)
  {
  }

  /**
   * Two paths with the same maximum, minimum and terminal price get the same
   * barrier payoff.
   */
  lemma BarrierDependsOnlyOnExtremaAndLast(b: BarrierOption, s: seq<real>, t: seq<real>)
    requires |s| > 0 && |t| > 0
    requires Max(s) == Max(t) && Min(s) == Min(t) && Last(s) == Last(t)
    ensures BarrierPayoff(b, s) == BarrierPayoff(b, t)
  {
    assert IsActive(b, s) == IsActive(b, t);
  }

  /**
   * Two paths with the same maximum, minimum and terminal price get the same
   * lookback payoff.
   */
  lemma LookBackDependsOnlyOnExtremaAndLast(l: LookBackOption, s: seq<real>, t: seq<real>)
    requires |s| > 0 && |t| > 0
    requires Max(s) == Max(t) && Min(s) == Min(t) && Last(s) == Last(t)
    ensures LookBackPayoff(l, s) == LookBackPayoff(l, t)
  {
  }
}
