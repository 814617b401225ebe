/** `convertWeight` and `convertHeight`: a product or quotient by a fixed
    factor, rounded to 0.01 lb, 0.001 kg or 0.1 in/cm by
    `Math.round(x * k) / k`. */
module UnitConversion {
  import opened JsNumber

  const LbPerKg: real := 2.20462
  const CmPerIn: real := 2.54

  function KgToLb(kg: real): (lb: real)
    ensures OnGrid(lb, 100)
    ensures Abs(lb - kg * LbPerKg) <= 0.005
  {
    Round((kg * LbPerKg) * 100.0) as real / 100.0
  }

  function LbToKg(lb: real): (kg: real)
    ensures OnGrid(kg, 1000)
    ensures Abs(kg - lb / LbPerKg) <= 0.0005
  {
    Round((lb / LbPerKg) * 1000.0) as real / 1000.0
  }

  function CmToIn(cm: real): (inches: real)
    ensures OnGrid(inches, 10)
    ensures Abs(inches - cm / CmPerIn) <= 0.05
  {
    Round((cm / CmPerIn) * 10.0) as real / 10.0
  }

  function InToCm(inches: real): (cm: real)
    ensures OnGrid(cm, 10)
    ensures Abs(cm - inches * CmPerIn) <= 0.05
  {
    Round((inches * CmPerIn) * 10.0) as real / 10.0
  }

  /** Every conversion preserves order (ties may merge). */
  lemma ConversionsMonotone(a: real, b: real)
    requires a <= b
    ensures KgToLb(a) <= KgToLb(b) && LbToKg(a) <= LbToKg(b)
    ensures CmToIn(a) <= CmToIn(b) && InToCm(a) <= InToCm(b)
  {
    RoundMonotone((a * LbPerKg) * 100.0, (b * LbPerKg) * 100.0);
    RoundMonotone((a / LbPerKg) * 1000.0, (b / LbPerKg) * 1000.0);
    RoundMonotone((a / CmPerIn) * 10.0, (b / CmPerIn) * 10.0);
    RoundMonotone((a * CmPerIn) * 10.0, (b * CmPerIn) * 10.0);
  }

  /** kg -> lb -> kg loses less than 0.003 kg: the lb rounding contributes at
      most 0.005 / 2.20462 and the kg rounding at most 0.0005. */
  lemma WeightRoundTrip(kg: real)
    ensures Abs(LbToKg(KgToLb(kg)) - kg) < 0.003
  {
    var lb := KgToLb(kg);
    assert Abs(lb / LbPerKg - kg) <= 0.005 / LbPerKg by {
      assert lb / LbPerKg - kg == (lb - kg * LbPerKg) / LbPerKg;
    }
  }

  /** cm -> in -> cm loses at most 0.177 cm: 0.05 in is 0.127 cm, plus the
      final rounding to 0.05 cm. */
  lemma HeightRoundTrip(cm: real)
    ensures Abs(InToCm(CmToIn(cm)) - cm) <= 0.177
  {
    var inches := CmToIn(cm);
    assert Abs(inches * CmPerIn - cm) <= 0.127 by {
      assert inches * CmPerIn - cm == (inches - cm / CmPerIn) * CmPerIn;
    }
  }

  /** The round trip the height unit test uses moves 55.5 cm to 55.6 cm, more
      than that test's tolerance of 0.05. */
  lemma HeightRoundTripExample()
    ensures CmToIn(55.5) == 21.9
    ensures InToCm(21.9) == 55.6
  {
  }

  /** The weight round trip of the unit test: 3.5 kg -> 7.72 lb -> 3.502 kg. */
  lemma WeightRoundTripExample()
    ensures KgToLb(3.5) == 7.72
    ensures LbToKg(7.72) == 3.502
  {
  }
}
