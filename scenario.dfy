/**
 * The sample portfolio's test data: a ten-day price path, a common strike of
 * 105, an expiry of 1 and an up barrier at 114, with the payoffs each
 * modelled contract gives on it.
 */
module Scenario {
  import opened Optional
  import opened PricePath
  import opened Exotic

  const Path: seq<real> := [100.0, 102.0, 104.0, 108.0, 107.0, 112.0, 115.0, 113.0, 110.0, 112.0]
  const K: real := 105.0
  const T: real := 1.0
  const H: real := 114.0

  /** The sample path peaks at 115. */
  lemma PathMax()
    ensures Max(Path) == 115.0
  {
    assert Path[6] == 115.0;
    assert forall i :: 0 <= i < |Path| ==> Path[i] <= 115.0;
  }

  /** The sample path bottoms at 100. */
  lemma PathMin()
    ensures Min(Path) == 100.0
  {
    assert Path[0] == 100.0;
    assert forall i :: 0 <= i < |Path| ==> 100.0 <= Path[i];
  }

  /** The sample path averages 1083 / 10 = 108.3. */
  lemma PathMean()
    ensures Mean(Path) == 108.3
  {
    assert Sum(Path[9..]) == 112.0;
    assert Path[8..][1..] == Path[9..];
    assert Sum(Path[8..]) == 222.0;
    assert Path[7..][1..] == Path[8..];
    assert Sum(Path[7..]) == 335.0;
    assert Path[6..][1..] == Path[7..];
    assert Sum(Path[6..]) == 450.0;
    assert Path[5..][1..] == Path[6..];
    assert Sum(Path[5..]) == 562.0;
    assert Path[4..][1..] == Path[5..];
    assert Sum(Path[4..]) == 669.0;
    assert Path[3..][1..] == Path[4..];
    assert Sum(Path[3..]) == 777.0;
    assert Path[2..][1..] == Path[3..];
    assert Sum(Path[2..]) == 881.0;
    assert Path[1..][1..] == Path[2..];
    assert Sum(Path[1..]) == 983.0;
    assert Path[0..][1..] == Path[1..];
    assert Sum(Path[0..]) == 1083.0;
    assert Path[0..] == Path;
  }

  /** The sample path peaks at 115, bottoms at 100, averages 108.3 and ends at 112. */
  lemma PathSummary()
    ensures Max(Path) == 115.0 && Min(Path) == 100.0
    ensures Mean(Path) == 108.3 && Last(Path) == 112.0
  {
    PathMax();
    PathMin();
    PathMean();
  }

  /** The up-and-out call at 114 is knocked out by the 115 observation and pays 0. */
  lemma UpAndOutCallKnockedOut()
    ensures HasHitBarrier(BarrierOption(K, T, H, isKnockIn := false, isUp := true), Path)
    ensures BarrierPayoff(BarrierOption(K, T, H, isKnockIn := false, isUp := true), Path) == 0.0
  {
    PathSummary();
  }

  /** The matching up-and-in call is alive and pays the vanilla 112 - 105 = 7. */
  lemma UpAndInCallPaysVanilla()
    ensures BarrierPayoff(BarrierOption(K, T, H, isKnockIn := true, isUp := true), Path) == 7.0
  {
    PathSummary();
  }

  /** The arithmetic Asian call pays 108.3 - 105 = 3.3. */
  lemma ArithmeticAsianCallPays()
    ensures AsianPayoff(AsianOption(K, T, isCall := true, averageType := Arithmetic), Path) == 3.3
  {
    PathSummary();
  }

  /** The fixed-strike lookback call pays 115 - 105 = 10. */
  lemma FixedLookBackCallPays()
    ensures LookBackPayoff(LookBackOption(Some(K), T, typeOption := Fixe, isCall := true), Path) == Ok(10.0)
  {
    PathSummary();
  }

  /** The floating-strike lookback call, built without a strike, pays 112 - 100 = 12. */
  lemma FloatingLookBackCallPays()
    ensures LookBackPayoff(LookBackOption(None, T, typeOption := Flottant, isCall := true), Path) == Ok(12.0)
  {
    PathSummary();
  }
}
