/** `WHO_GROWTH_DATA`: the WHO Child Growth Standards LMS parameters shipped
    with the app, 25 rows per series from birth to 731 days, for each sex and
    each of weight (kg), length (cm) and head circumference (cm). The lemmas
    are the facts about these rows that the percentile estimator relies on. */
module GrowthReference {
  import opened GrowthTypes
  import Sorting
  import Percentile

  /** The ages (in days) at which every series is tabulated. */
  const StandardAges: seq<int> :=
    [0, 30, 61, 91, 122, 152, 183, 213, 244, 274, 305, 335, 365,
     396, 426, 457, 487, 518, 548, 579, 609, 640, 670, 701, 731]

  /** src/data/whoGrowthData.ts, lines 22-46. */
  const MaleWeight: seq<LmsPoint> := [
    LmsPoint(0, 0.3487, 3.3464, 0.14602),
    LmsPoint(30, 0.2581, 4.4709, 0.13395),
    LmsPoint(61, 0.1970, 5.5675, 0.12385),
    LmsPoint(91, 0.1738, 6.3762, 0.11727),
    LmsPoint(122, 0.1553, 7.0023, 0.11316),
    LmsPoint(152, 0.1395, 7.5105, 0.11080),
    LmsPoint(183, 0.1257, 7.9340, 0.10958),
    LmsPoint(213, 0.1134, 8.2970, 0.10902),
    LmsPoint(244, 0.1021, 8.6151, 0.10882),
    LmsPoint(274, 0.0917, 8.9014, 0.10881),
    LmsPoint(305, 0.0820, 9.1649, 0.10891),
    LmsPoint(335, 0.0730, 9.4122, 0.10906),
    LmsPoint(365, 0.0644, 9.6479, 0.10925),
    LmsPoint(396, 0.0563, 9.8749, 0.10949),
    LmsPoint(426, 0.0487, 10.0953, 0.10976),
    LmsPoint(457, 0.0413, 10.3108, 0.11007),
    LmsPoint(487, 0.0343, 10.5228, 0.11041),
    LmsPoint(518, 0.0276, 10.7319, 0.11078),
    LmsPoint(548, 0.0211, 10.9385, 0.11117),
    LmsPoint(579, 0.0148, 11.1430, 0.11159),
    LmsPoint(609, 0.0087, 11.3462, 0.11203),
    LmsPoint(640, 0.0027, 11.5486, 0.11250),
    LmsPoint(670, -0.0031, 11.7504, 0.11299),
    LmsPoint(701, -0.0089, 11.9514, 0.11350),
    LmsPoint(731, -0.0146, 12.1515, 0.11404)
  ]

  /** src/data/whoGrowthData.ts, lines 50-74. */
  const MaleHeight: seq<LmsPoint> := [
    LmsPoint(0, 1.0, 49.8842, 0.03686),
    LmsPoint(30, 1.0, 54.7244, 0.03557),
    LmsPoint(61, 1.0, 58.4249, 0.03424),
    LmsPoint(91, 1.0, 61.4292, 0.03328),
    LmsPoint(122, 1.0, 63.8861, 0.03257),
    LmsPoint(152, 1.0, 65.9026, 0.03204),
    LmsPoint(183, 1.0, 67.6236, 0.03165),
    LmsPoint(213, 1.0, 69.1645, 0.03139),
    LmsPoint(244, 1.0, 70.6009, 0.03124),
    LmsPoint(274, 1.0, 71.9687, 0.03117),
    LmsPoint(305, 1.0, 73.2812, 0.03117),
    LmsPoint(335, 1.0, 74.5388, 0.03123),
    LmsPoint(365, 1.0, 75.7488, 0.03133),
    LmsPoint(396, 1.0, 76.9186, 0.03147),
    LmsPoint(426, 1.0, 78.0497, 0.03164),
    LmsPoint(457, 1.0, 79.1458, 0.03184),
    LmsPoint(487, 1.0, 80.2097, 0.03207),
    LmsPoint(518, 1.0, 81.2433, 0.03232),
    LmsPoint(548, 1.0, 82.2487, 0.03259),
    LmsPoint(579, 1.0, 83.2277, 0.03289),
    LmsPoint(609, 1.0, 84.1821, 0.03321),
    LmsPoint(640, 1.0, 85.1133, 0.03354),
    LmsPoint(670, 1.0, 86.0227, 0.03390),
    LmsPoint(701, 1.0, 86.9115, 0.03428),
    LmsPoint(731, 1.0, 87.7815, 0.03467)
  ]

  /** src/data/whoGrowthData.ts, lines 78-102. */
  const MaleHead: seq<LmsPoint> := [
    LmsPoint(0, 1.0, 34.4618, 0.03496),
    LmsPoint(30, 1.0, 37.2759, 0.03175),
    LmsPoint(61, 1.0, 39.1285, 0.02953),
    LmsPoint(91, 1.0, 40.5135, 0.02796),
    LmsPoint(122, 1.0, 41.6317, 0.02676),
    LmsPoint(152, 1.0, 42.5576, 0.02581),
    LmsPoint(183, 1.0, 43.3306, 0.02504),
    LmsPoint(213, 1.0, 43.9803, 0.02441),
    LmsPoint(244, 1.0, 44.5321, 0.02387),
    LmsPoint(274, 1.0, 45.0061, 0.02341),
    LmsPoint(305, 1.0, 45.4182, 0.02302),
    LmsPoint(335, 1.0, 45.7804, 0.02268),
    LmsPoint(365, 1.0, 46.1013, 0.02239),
    LmsPoint(396, 1.0, 46.3876, 0.02213),
    LmsPoint(426, 1.0, 46.6448, 0.02190),
    LmsPoint(457, 1.0, 46.8773, 0.02170),
    LmsPoint(487, 1.0, 47.0888, 0.02152),
    LmsPoint(518, 1.0, 47.2821, 0.02135),
    LmsPoint(548, 1.0, 47.4595, 0.02120),
    LmsPoint(579, 1.0, 47.6230, 0.02106),
    LmsPoint(609, 1.0, 47.7741, 0.02094),
    LmsPoint(640, 1.0, 47.9142, 0.02082),
    LmsPoint(670, 1.0, 48.0448, 0.02071),
    LmsPoint(701, 1.0, 48.1669, 0.02061),
    LmsPoint(731, 1.0, 48.2815, 0.02052)
  ]

  /** src/data/whoGrowthData.ts, lines 108-132. */
  const FemaleWeight: seq<LmsPoint> := [
    LmsPoint(0, 0.3809, 3.2322, 0.14171),
    LmsPoint(30, 0.2986, 4.1873, 0.13007),
    LmsPoint(61, 0.2422, 5.1282, 0.12094),
    LmsPoint(91, 0.2201, 5.8458, 0.11608),
    LmsPoint(122, 0.2024, 6.4237, 0.11368),
    LmsPoint(152, 0.1871, 6.8985, 0.11248),
    LmsPoint(183, 0.1735, 7.2970, 0.11187),
    LmsPoint(213, 0.1612, 7.6422, 0.11156),
    LmsPoint(244, 0.1499, 7.9487, 0.11140),
    LmsPoint(274, 0.1394, 8.2254, 0.11132),
    LmsPoint(305, 0.1295, 8.4800, 0.11129),
    LmsPoint(335, 0.1202, 8.7192, 0.11130),
    LmsPoint(365, 0.1113, 8.9481, 0.11135),
    LmsPoint(396, 0.1028, 9.1699, 0.11143),
    LmsPoint(426, 0.0947, 9.3868, 0.11153),
    LmsPoint(457, 0.0869, 9.6008, 0.11165),
    LmsPoint(487, 0.0794, 9.8124, 0.11179),
    LmsPoint(518, 0.0721, 10.0226, 0.11194),
    LmsPoint(548, 0.0651, 10.2315, 0.11211),
    LmsPoint(579, 0.0582, 10.4393, 0.11229),
    LmsPoint(609, 0.0516, 10.6464, 0.11248),
    LmsPoint(640, 0.0451, 10.8534, 0.11268),
    LmsPoint(670, 0.0387, 11.0608, 0.11290),
    LmsPoint(701, 0.0325, 11.2691, 0.11312),
    LmsPoint(731, 0.0264, 11.4788, 0.11336)
  ]

  /** src/data/whoGrowthData.ts, lines 136-160. */
  const FemaleHeight: seq<LmsPoint> := [
    LmsPoint(0, 1.0, 49.1477, 0.03790),
    LmsPoint(30, 1.0, 53.6872, 0.03640),
    LmsPoint(61, 1.0, 57.0673, 0.03496),
    LmsPoint(91, 1.0, 59.8029, 0.03393),
    LmsPoint(122, 1.0, 62.0899, 0.03321),
    LmsPoint(152, 1.0, 64.0301, 0.03268),
    LmsPoint(183, 1.0, 65.7311, 0.03228),
    LmsPoint(213, 1.0, 67.2873, 0.03199),
    LmsPoint(244, 1.0, 68.7498, 0.03179),
    LmsPoint(274, 1.0, 70.1435, 0.03168),
    LmsPoint(305, 1.0, 71.4818, 0.03163),
    LmsPoint(335, 1.0, 72.7718, 0.03164),
    LmsPoint(365, 1.0, 74.0157, 0.03169),
    LmsPoint(396, 1.0, 75.2176, 0.03178),
    LmsPoint(426, 1.0, 76.3817, 0.03190),
    LmsPoint(457, 1.0, 77.5099, 0.03205),
    LmsPoint(487, 1.0, 78.6055, 0.03223),
    LmsPoint(518, 1.0, 79.6711, 0.03243),
    LmsPoint(548, 1.0, 80.7079, 0.03266),
    LmsPoint(579, 1.0, 81.7182, 0.03291),
    LmsPoint(609, 1.0, 82.7036, 0.03318),
    LmsPoint(640, 1.0, 83.6654, 0.03347),
    LmsPoint(670, 1.0, 84.6050, 0.03378),
    LmsPoint(701, 1.0, 85.5236, 0.03411),
    LmsPoint(731, 1.0, 86.4227, 0.03446)
  ]

  /** src/data/whoGrowthData.ts, lines 164-188. */
  const FemaleHead: seq<LmsPoint> := [
    LmsPoint(0, 1.0, 33.8787, 0.03496),
    LmsPoint(30, 1.0, 36.5463, 0.03252),
    LmsPoint(61, 1.0, 38.2521, 0.03073),
    LmsPoint(91, 1.0, 39.5328, 0.02936),
    LmsPoint(122, 1.0, 40.5574, 0.02826),
    LmsPoint(152, 1.0, 41.4184, 0.02735),
    LmsPoint(183, 1.0, 42.1515, 0.02658),
    LmsPoint(213, 1.0, 42.7846, 0.02592),
    LmsPoint(244, 1.0, 43.3370, 0.02533),
    LmsPoint(274, 1.0, 43.8248, 0.02481),
    LmsPoint(305, 1.0, 44.2606, 0.02435),
    LmsPoint(335, 1.0, 44.6542, 0.02394),
    LmsPoint(365, 1.0, 45.0131, 0.02357),
    LmsPoint(396, 1.0, 45.3431, 0.02324),
    LmsPoint(426, 1.0, 45.6485, 0.02294),
    LmsPoint(457, 1.0, 45.9331, 0.02267),
    LmsPoint(487, 1.0, 46.1998, 0.02242),
    LmsPoint(518, 1.0, 46.4508, 0.02219),
    LmsPoint(548, 1.0, 46.6880, 0.02198),
    LmsPoint(579, 1.0, 46.9131, 0.02178),
    LmsPoint(609, 1.0, 47.1274, 0.02160),
    LmsPoint(640, 1.0, 47.3322, 0.02143),
    LmsPoint(670, 1.0, 47.5285, 0.02127),
    LmsPoint(701, 1.0, 47.7170, 0.02112),
    LmsPoint(731, 1.0, 47.8985, 0.02098)
  ]

  /** `WHO_GROWTH_DATA[gender][measurementType]`. */
  function Series(sex: Sex, t: MeasurementType): (s: seq<LmsPoint>)
    ensures |s| == |StandardAges| == 25
    ensures forall i :: 0 <= i < |s| ==> s[i].ageInDays == StandardAges[i]
  {
    match (sex, t)
    case (Male, Weight) => MaleWeight
    case (Male, Height) => MaleHeight
    case (Male, Head) => MaleHead
    case (Female, Weight) => FemaleWeight
    case (Female, Height) => FemaleHeight
    case (Female, Head) => FemaleHead
  }

  /** Each step up a chain is enough for the whole chain to increase. */
  lemma {:induction false} ChainIncreasing(s: seq<LmsPoint>, f: LmsPoint -> real)
    requires forall i :: 0 <= i < |s| - 1 ==> f(s[i]) < f(s[i + 1])
    ensures forall i, j :: 0 <= i < j < |s| ==> f(s[i]) < f(s[j])
    decreases |s|
  {
    if |s| > 1 {
      var init := s[..|s| - 1];
      ChainIncreasing(init, f);
      forall i | 0 <= i < |s| - 1 ensures f(s[i]) < f(s[|s| - 1]) {
        if i < |s| - 2 {
          assert f(init[i]) < f(init[|s| - 2]);
        }
      }
    }
  }

  /** The age of a row as a real, so that the age column can reuse
      `ChainIncreasing`, which is stated for the real-valued columns L and M
      (`Percentile.AgeKey` is the same age as an integer sort key). */
  function AgeOf(p: LmsPoint): real
  {
    p.ageInDays as real
  }

  /** The shared age column increases strictly. */
  lemma StandardAgesIncrease()
    ensures forall i, j :: 0 <= i < j < 25 ==> StandardAges[i] < StandardAges[j]
  {
    ChainIncreasing(MaleWeight, AgeOf);
    forall i, j | 0 <= i < j < 25 ensures StandardAges[i] < StandardAges[j] {
      assert AgeOf(MaleWeight[i]) < AgeOf(MaleWeight[j]);
    }
  }

  /** Ages strictly increase within every series, so the in-place sort by
      age finds nothing to move. */
  lemma SeriesStrictlyAscending(sex: Sex, t: MeasurementType)
    ensures Percentile.AgesStrictlyAscending(Series(sex, t))
    ensures Percentile.AgesAscending(Series(sex, t))
    ensures Sorting.InsertionSort(Series(sex, t), Percentile.AgeKey) == Series(sex, t)
  {
    var s := Series(sex, t);
    assert Percentile.AgesStrictlyAscending(s) by {
      StandardAgesIncrease();
      forall i, j | 0 <= i < j < |s| ensures s[i].ageInDays < s[j].ageInDays {
        assert s[i].ageInDays == StandardAges[i] && s[j].ageInDays == StandardAges[j];
      }
    }
    assert Percentile.AgesAscending(s) by {
      forall i, j | 0 <= i < j < |s| ensures Percentile.AgeKey(s[i]) <= Percentile.AgeKey(s[j]) {
        assert s[i].ageInDays < s[j].ageInDays;
      }
    }
    Sorting.SortedIsFixpoint(s, Percentile.AgeKey);
  }

  /** Positive scales, and an increasing median, in each series. */
  lemma MaleWeightScales()
    ensures Percentile.PositiveScales(MaleWeight)
  {
    assert forall p :: p in MaleWeight ==> p.M > 0.0 && p.S > 0.0;
    forall i | 0 <= i < |MaleWeight| ensures MaleWeight[i].M > 0.0 && MaleWeight[i].S > 0.0 {
      assert MaleWeight[i] in MaleWeight;
    }
  }

  lemma MaleWeightMedian()
    ensures forall i, j :: 0 <= i < j < |MaleWeight| ==> MaleWeight[i].M < MaleWeight[j].M
  {
    ChainIncreasing(MaleWeight, MedianOf);
  }

  lemma MaleHeightScales()
    ensures Percentile.PositiveScales(MaleHeight)
  {
    assert forall p :: p in MaleHeight ==> p.M > 0.0 && p.S > 0.0;
    forall i | 0 <= i < |MaleHeight| ensures MaleHeight[i].M > 0.0 && MaleHeight[i].S > 0.0 {
      assert MaleHeight[i] in MaleHeight;
    }
  }

  lemma MaleHeightMedian()
    ensures forall i, j :: 0 <= i < j < |MaleHeight| ==> MaleHeight[i].M < MaleHeight[j].M
  {
    ChainIncreasing(MaleHeight, MedianOf);
  }

  lemma MaleHeadScales()
    ensures Percentile.PositiveScales(MaleHead)
  {
    assert forall p :: p in MaleHead ==> p.M > 0.0 && p.S > 0.0;
    forall i | 0 <= i < |MaleHead| ensures MaleHead[i].M > 0.0 && MaleHead[i].S > 0.0 {
      assert MaleHead[i] in MaleHead;
    }
  }

  lemma MaleHeadMedian()
    ensures forall i, j :: 0 <= i < j < |MaleHead| ==> MaleHead[i].M < MaleHead[j].M
  {
    ChainIncreasing(MaleHead, MedianOf);
  }

  lemma FemaleWeightScales()
    ensures Percentile.PositiveScales(FemaleWeight)
  {
    assert forall p :: p in FemaleWeight ==> p.M > 0.0 && p.S > 0.0;
    forall i | 0 <= i < |FemaleWeight| ensures FemaleWeight[i].M > 0.0 && FemaleWeight[i].S > 0.0 {
      assert FemaleWeight[i] in FemaleWeight;
    }
  }

  lemma FemaleWeightMedian()
    ensures forall i, j :: 0 <= i < j < |FemaleWeight| ==> FemaleWeight[i].M < FemaleWeight[j].M
  {
    ChainIncreasing(FemaleWeight, MedianOf);
  }

  lemma FemaleHeightScales()
    ensures Percentile.PositiveScales(FemaleHeight)
  {
    assert forall p :: p in FemaleHeight ==> p.M > 0.0 && p.S > 0.0;
    forall i | 0 <= i < |FemaleHeight| ensures FemaleHeight[i].M > 0.0 && FemaleHeight[i].S > 0.0 {
      assert FemaleHeight[i] in FemaleHeight;
    }
  }

  lemma FemaleHeightMedian()
    ensures forall i, j :: 0 <= i < j < |FemaleHeight| ==> FemaleHeight[i].M < FemaleHeight[j].M
  {
    ChainIncreasing(FemaleHeight, MedianOf);
  }

  lemma FemaleHeadScales()
    ensures Percentile.PositiveScales(FemaleHead)
  {
    assert forall p :: p in FemaleHead ==> p.M > 0.0 && p.S > 0.0;
    forall i | 0 <= i < |FemaleHead| ensures FemaleHead[i].M > 0.0 && FemaleHead[i].S > 0.0 {
      assert FemaleHead[i] in FemaleHead;
    }
  }

  lemma FemaleHeadMedian()
    ensures forall i, j :: 0 <= i < j < |FemaleHead| ==> FemaleHead[i].M < FemaleHead[j].M
  {
    ChainIncreasing(FemaleHead, MedianOf);
  }

  /** Every row has a positive median and coefficient of variation. */
  lemma SeriesPositiveScales(sex: Sex, t: MeasurementType)
    ensures Percentile.PositiveScales(Series(sex, t))
  {
    match (sex, t)
    case (Male, Weight) => MaleWeightScales();
    case (Male, Height) => MaleHeightScales();
    case (Male, Head) => MaleHeadScales();
    case (Female, Weight) => FemaleWeightScales();
    case (Female, Height) => FemaleHeightScales();
    case (Female, Head) => FemaleHeadScales();
  }

  /** Length and head circumference are normally distributed: L is 1 in
      every row. */
  lemma LengthAndHeadAreNormal(sex: Sex, t: MeasurementType)
    requires t != Weight
    ensures forall i :: 0 <= i < 25 ==> Series(sex, t)[i].L == 1.0
  {
  }

  function MedianOf(p: LmsPoint): real
  {
    p.M
  }

  /** The median strictly increases with age in every series. */
  lemma MedianIncreasing(sex: Sex, t: MeasurementType)
    ensures forall i, j :: 0 <= i < j < 25 ==> Series(sex, t)[i].M < Series(sex, t)[j].M
  {
    match (sex, t)
    case (Male, Weight) => MaleWeightMedian();
    case (Male, Height) => MaleHeightMedian();
    case (Male, Head) => MaleHeadMedian();
    case (Female, Weight) => FemaleWeightMedian();
    case (Female, Height) => FemaleHeightMedian();
    case (Female, Head) => FemaleHeadMedian();
  }

  function NegatedL(p: LmsPoint): real
  {
    -p.L
  }

  /** Male weight: L strictly decreases and changes sign between day 640
      (row 21) and day 670 (row 22), so L is non-zero at every tabulated age
      and the estimator never takes the logarithmic branch there. */
  lemma MaleWeightSkewness()
    ensures forall i, j :: 0 <= i < j < 25 ==> MaleWeight[i].L > MaleWeight[j].L
    ensures MaleWeight[21].ageInDays == 640 && MaleWeight[22].ageInDays == 670
    ensures forall i :: 0 <= i <= 21 ==> MaleWeight[i].L > 0.0
    ensures forall i :: 22 <= i < 25 ==> MaleWeight[i].L < 0.0
  {
    ChainIncreasing(MaleWeight, NegatedL);
  }

  /** Female weight: L stays positive at every tabulated age. */
  lemma FemaleWeightSkewness()
    ensures forall i :: 0 <= i < 25 ==> FemaleWeight[i].L > 0.0
  {
  }

  /** On the shipped series, a value at the interpolated median is at the
      50th percentile at every age. */
  lemma ShippedMedianIsFiftieth(sex: Sex, t: MeasurementType, age: int, math: Percentile.Transcendentals)
    requires Percentile.Anchored(math)
    ensures Percentile.AgesAscending(Series(sex, t)) && Percentile.PositiveScales(Series(sex, t))
    ensures Percentile.PercentileOf(Percentile.Interpolate(Series(sex, t), age).M, age, Series(sex, t), math) == 50.0
  {
    SeriesStrictlyAscending(sex, t);
    SeriesPositiveScales(sex, t);
    Percentile.PercentileAtMedian(age, Series(sex, t), math);
  }

  /** The birth median of the male weight series, 3.3464 kg, is at the 50th
      percentile on day 0. */
  lemma BirthMedianExample(math: Percentile.Transcendentals)
    requires Percentile.Anchored(math)
    ensures Percentile.AgesAscending(MaleWeight) && Percentile.PositiveScales(MaleWeight)
    ensures Percentile.PercentileOf(3.3464, 0, MaleWeight, math) == 50.0
  {
    ShippedMedianIsFiftieth(Male, Weight, 0, math);
    Percentile.InterpolateClampLow(MaleWeight, 0);
  }
}
