/** Wind speed helpers of makeCurrentGeoJSON.py: the knots to mph
    conversion, the Saffir-Simpson hurricane number and the category label
    built from them. */
module Wind {
  import opened Results
  import opened Strings

  /** `convertKnotsToMiles` (makeCurrentGeoJSON.py:96-97): the speed in mph
      (1 knot = 1.15078 mph) rounded to the nearest multiple of 5, an exact
      half going away from zero as Python 2's `round` does. The arithmetic
      is exact: mph = 5 * round(knots * 115078 / 500000). */
  function KnotsToMph(knots: int): (mph: int)
    ensures mph % 5 == 0
    ensures knots >= 0 ==> mph >= 0
    ensures knots <= 0 ==> mph <= 0
    // within 2.5 mph of knots * 1.15078, both sides scaled by 100000
    ensures -250000 <= mph * 100000 - knots * 115078 <= 250000
    // an exact half is rounded away from zero
    ensures mph * 100000 - knots * 115078 == 250000 ==> knots > 0
    ensures mph * 100000 - knots * 115078 == -250000 ==> knots < 0
  {
    5 * RoundHalfAway(knots * 115078)
  }

  /** Python 2 `round(scaled / 500000)`: the nearest integer, an exact half
      going away from zero. */
  function RoundHalfAway(scaled: int): (q: int)
    ensures -250000 <= q * 500000 - scaled <= 250000
    ensures q * 500000 - scaled == 250000 ==> scaled > 0
    ensures q * 500000 - scaled == -250000 ==> scaled < 0
    ensures scaled >= 0 ==> q >= 0
    ensures scaled <= 0 ==> q <= 0
  {
    if scaled >= 0 then
      var n := 2 * scaled + 500000;
      assert n == 1000000 * (n / 1000000) + n % 1000000;
      n / 1000000
    else
      var n := 500000 - 2 * scaled;
      assert n == 1000000 * (n / 1000000) + n % 1000000;
      -(n / 1000000)
  }

  /** No other multiple of 5 is closer to the exact speed: the conversion
      really is "round to the nearest 5 mph". */
  lemma KnotsToMphIsNearest(knots: int, m: int)
    ensures var d := KnotsToMph(knots) * 100000 - knots * 115078;
            var e := 5 * m * 100000 - knots * 115078;
            (if d < 0 then -d else d) <= (if e < 0 then -e else e)
  {
    var k := RoundHalfAway(knots * 115078);
    if m < k {
      assert 5 * m * 100000 <= 5 * k * 100000 - 500000;
    } else if m > k {
      assert 5 * m * 100000 >= 5 * k * 100000 + 500000;
    }
  }

  /** More knots never give fewer mph. */
  lemma KnotsToMphMonotonic(k1: int, k2: int)
    requires k1 <= k2
    ensures KnotsToMph(k1) <= KnotsToMph(k2)
  {
  }

  /** The conversion is symmetric about zero. */
  lemma KnotsToMphOdd(knots: int)
    ensures KnotsToMph(-knots) == -KnotsToMph(knots)
  {
  }

  /** The first knot value of each hurricane band, in mph. */
  lemma KnotsToMphExamples()
    ensures KnotsToMph(64) == 75 && KnotsToMph(83) == 95 && KnotsToMph(96) == 110
    ensures KnotsToMph(113) == 130 && KnotsToMph(137) == 160
    ensures KnotsToMph(70) == 80 && KnotsToMph(150) == 175
  {
  }

  /** `hurricaneNumber` (makeCurrentGeoJSON.py:99-112): the Saffir-Simpson
      category of a wind in knots, `None` below hurricane strength. Python's
      final fall-through (returning `None`) cannot be reached by an integer. */
  function HurricaneNumber(wind: int): (n: Option<int>)
    ensures n.None? <==> wind <= 63
    ensures n.Some? ==> 1 <= n.value <= 5
  {
    if wind <= 63 then None
    else if 64 <= wind <= 82 then Some(1)
    else if 83 <= wind <= 95 then Some(2)
    else if 96 <= wind <= 112 then Some(3)
    else if 113 <= wind <= 136 then Some(4)
    else Some(5)
  }

  /** The lowest wind in knots of Saffir-Simpson categories 1 to 5. */
  const CategoryThresholds: seq<int> := [64, 83, 96, 113, 137]

  /** How many of the thresholds `wind` reaches. */
  function Reached(thresholds: seq<int>, wind: int): (n: nat)
    ensures n <= |thresholds|
  {
    if |thresholds| == 0 then 0
    else (if thresholds[0] <= wind then 1 else 0) + Reached(thresholds[1..], wind)
  }

  /** The order of `None` < 1 < ... < 5. */
  function Rank(n: Option<int>): int {
    match n
    case None => 0
    case Some(v) => v
  }

  /** `hurricaneNumber` counts the category thresholds the wind reaches:
      an independent statement of the band table. */
  lemma HurricaneNumberCountsThresholds(wind: int)
    ensures Rank(HurricaneNumber(wind)) == Reached(CategoryThresholds, wind)
  {
    var t := CategoryThresholds;
    assert Reached(t[5..], wind) == 0;
    assert t[4..][1..] == t[5..];
    assert Reached(t[4..], wind) == (if 137 <= wind then 1 else 0);
    assert t[3..][1..] == t[4..];
    assert Reached(t[3..], wind) == (if 113 <= wind then 1 else 0) + Reached(t[4..], wind);
    assert t[2..][1..] == t[3..];
    assert Reached(t[2..], wind) == (if 96 <= wind then 1 else 0) + Reached(t[3..], wind);
    assert t[1..][1..] == t[2..];
    assert Reached(t[1..], wind) == (if 83 <= wind then 1 else 0) + Reached(t[2..], wind);
  }

  lemma {:induction false} ReachedMonotonic(thresholds: seq<int>, w1: int, w2: int)
    requires w1 <= w2
    ensures Reached(thresholds, w1) <= Reached(thresholds, w2)
  {
    if |thresholds| > 0 {
      ReachedMonotonic(thresholds[1..], w1, w2);
    }
  }

  /** A stronger wind never gives a lower hurricane number. */
  lemma HurricaneNumberMonotonic(w1: int, w2: int)
    requires w1 <= w2
    ensures Rank(HurricaneNumber(w1)) <= Rank(HurricaneNumber(w2))
  {
    HurricaneNumberCountsThresholds(w1);
    HurricaneNumberCountsThresholds(w2);
    ReachedMonotonic(CategoryThresholds, w1, w2);
  }

  /** The band table, read in the direction a reader checks it. */
  lemma HurricaneBands(wind: int)
    ensures HurricaneNumber(wind) == None <==> wind <= 63
    ensures HurricaneNumber(wind) == Some(1) <==> 64 <= wind <= 82
    ensures HurricaneNumber(wind) == Some(2) <==> 83 <= wind <= 95
    ensures HurricaneNumber(wind) == Some(3) <==> 96 <= wind <= 112
    ensures HurricaneNumber(wind) == Some(4) <==> 113 <= wind <= 136
    ensures HurricaneNumber(wind) == Some(5) <==> wind >= 137
  {
  }

  /** The storm-type codes of a hurricane and of a major hurricane. */
  const HurricaneTypes: seq<string> := ["HU", "MH"]

  /** Python `str()` of `hurricaneNumber`'s result. */
  function ShowNumber(n: Option<int>): string {
    match n
    case None => "None"
    case Some(v) => Show(v)
  }

  /** The category of a point (makeCurrentGeoJSON.py:169-174). For a
      hurricane code the guard `if hurricaneNumber:` tests the function
      object, which is always true, so the label is set even when there is
      no hurricane number and then reads "HNone". Any other code passes
      through unchanged. The wind is the knot value, before conversion. */
  function Category(stormType: string, knots: int): (cat: string)
    ensures stormType !in HurricaneTypes ==> cat == stormType
    ensures stormType in HurricaneTypes ==> (cat == "HNone" <==> knots <= 63)
    ensures stormType in HurricaneTypes && knots >= 64 ==>
              cat == "H" + [DigitChar(HurricaneNumber(knots).value)]
  {
    if stormType in HurricaneTypes then "H" + ShowNumber(HurricaneNumber(knots)) else stormType
  }

  /** Hurricane winds of 70 and 150 knots are H1 and H5; 50 knots gives the
      "HNone" label; a tropical storm keeps its code. */
  lemma CategoryExamples()
    ensures Category("HU", 70) == "H1"
    ensures Category("MH", 150) == "H5"
    ensures Category("HU", 50) == "HNone"
    ensures Category("TS", 50) == "TS"
  {
  }
}
