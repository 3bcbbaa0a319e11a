/**
 * `WindUtil` of the weather-layers plugin: wind force scales for speeds
 * in m/s and km/h, the 16-point wind direction names, and the speed unit
 * conversions of `WindFlowLayer`.
 */
module WindUtil {
  import opened JsMath

  /** Upper bounds (exclusive) of force levels 1..11 on the m/s scale. */
  const MsThresholds: seq<real> :=
    [1.6, 3.4, 5.5, 8.0, 10.8, 13.9, 17.2, 20.8, 24.5, 28.5, 32.6]

  /** Upper bounds (inclusive) of force levels 1..17 on the km/h scale. */
  const KmhThresholds: seq<real> :=
    [5.0, 11.0, 19.0, 28.0, 38.0, 49.0, 61.0, 74.0, 88.0, 102.0, 117.0,
     133.0, 149.0, 166.0, 183.0, 201.0, 220.0]

  /** How many entries of `ts` are at most `v`. */
  function CountAtMost(ts: seq<real>, v: real): (n: nat)
    ensures n <= |ts|
  {
    if |ts| == 0 then 0
    else (if ts[0] <= v then 1 else 0) + CountAtMost(ts[1..], v)
  }

  /** How many entries of `ts` are strictly below `v`. */
  function CountBelow(ts: seq<real>, v: real): (n: nat)
    ensures n <= |ts|
  {
    if |ts| == 0 then 0
    else (if ts[0] < v then 1 else 0) + CountBelow(ts[1..], v)
  }

  /** `WindUtil.getwindlevelms`: the force level of a speed in m/s. */
  function WindLevelMs(windV: real): (level: int)
    ensures 1 <= level <= 12
  {
    if windV < 1.6 then 1
    else if windV < 3.4 then 2
    else if windV < 5.5 then 3
    else if windV < 8.0 then 4
    else if windV < 10.8 then 5
    else if windV < 13.9 then 6
    else if windV < 17.2 then 7
    else if windV < 20.8 then 8
    else if windV < 24.5 then 9
    else if windV < 28.5 then 10
    else if windV < 32.6 then 11
    else 12
  }

  /** The m/s level is one more than the number of thresholds the speed has reached. */
  lemma WindLevelMsCountsThresholds(windV: real)
    ensures WindLevelMs(windV) == 1 + CountAtMost(MsThresholds, windV)
  {
    CountAtMostSorted(MsThresholds, windV, WindLevelMs(windV) - 1);
  }

  predicate Increasing(ts: seq<real>)
  {
    forall i :: 0 <= i < |ts| - 1 ==> ts[i] < ts[i + 1]
  }

  /** In an increasing list, the thresholds reached are exactly a prefix. */
  lemma {:induction false} CountAtMostSorted(ts: seq<real>, v: real, k: nat)
    requires Increasing(ts)
    requires k <= |ts|
    requires k == 0 || ts[k - 1] <= v
    requires k == |ts| || v < ts[k]
    ensures CountAtMost(ts, v) == k
  {
    if |ts| > 0 {
      assert Increasing(ts[1..]) by {
        forall i | 0 <= i < |ts[1..]| - 1 ensures ts[1..][i] < ts[1..][i + 1] {
          assert ts[i + 1] < ts[i + 2];
        }
      }
      if k == 0 {
        if |ts| > 1 { assert ts[0] < ts[1]; }
        CountAtMostSorted(ts[1..], v, 0);
      } else {
        CountAtMostSorted(ts[1..], v, k - 1);
        assert ts[0] <= v by {
          if k > 1 { IncreasingPrefix(ts, k - 1); }
        }
      }
    }
  }

  lemma {:induction false} CountBelowSorted(ts: seq<real>, v: real, k: nat)
    requires Increasing(ts)
    requires k <= |ts|
    requires k == 0 || ts[k - 1] < v
    requires k == |ts| || v <= ts[k]
    ensures CountBelow(ts, v) == k
  {
    if |ts| > 0 {
      assert Increasing(ts[1..]) by {
        forall i | 0 <= i < |ts[1..]| - 1 ensures ts[1..][i] < ts[1..][i + 1] {
          assert ts[i + 1] < ts[i + 2];
        }
      }
      if k == 0 {
        if |ts| > 1 { assert ts[0] < ts[1]; }
        CountBelowSorted(ts[1..], v, 0);
      } else {
        CountBelowSorted(ts[1..], v, k - 1);
        assert ts[0] < v by {
          if k > 1 { IncreasingPrefix(ts, k - 1); }
        }
      }
    }
  }

  /** In an increasing list the first entry is below every later one. */
  lemma {:induction false} IncreasingPrefix(ts: seq<real>, j: nat)
    requires Increasing(ts)
    requires j < |ts|
    ensures ts[0] <= ts[j]
  {
    if j > 0 {
      IncreasingPrefix(ts, j - 1);
      assert ts[j - 1] < ts[j];
    }
  }

  /** `WindUtil.getwindlevelkmh`: the force level of a speed in km/h. */
  function WindLevelKmh(windspeed: real): (level: int)
    ensures 0 <= level <= 18
  {
    if windspeed < 1.0 then 0
    else if windspeed <= 5.0 then 1
    else if windspeed <= 11.0 then 2
    else if windspeed <= 19.0 then 3
    else if windspeed <= 28.0 then 4
    else if windspeed <= 38.0 then 5
    else if windspeed <= 49.0 then 6
    else if windspeed <= 61.0 then 7
    else if windspeed <= 74.0 then 8
    else if windspeed <= 88.0 then 9
    else if windspeed <= 102.0 then 10
    else if windspeed <= 117.0 then 11
    else if windspeed <= 133.0 then 12
    else if windspeed <= 149.0 then 13
    else if windspeed <= 166.0 then 14
    else if windspeed <= 183.0 then 15
    else if windspeed <= 201.0 then 16
    else if windspeed <= 220.0 then 17
    else 18
  }

  /**
   * Below 1 km/h the level is 0; from there on it is one more than the
   * number of (inclusive) upper bounds the speed has passed.
   */
  lemma WindLevelKmhCountsThresholds(windspeed: real)
    ensures WindLevelKmh(windspeed) ==
            if windspeed < 1.0 then 0 else 1 + CountBelow(KmhThresholds, windspeed)
  {
    if windspeed >= 1.0 {
      CountBelowSorted(KmhThresholds, windspeed, WindLevelKmh(windspeed) - 1);
    }
  }

  lemma {:induction false} CountAtMostMonotone(ts: seq<real>, v: real, w: real)
    requires v <= w
    ensures CountAtMost(ts, v) <= CountAtMost(ts, w)
  {
    if |ts| > 0 {
      CountAtMostMonotone(ts[1..], v, w);
    }
  }

  lemma {:induction false} CountBelowMonotone(ts: seq<real>, v: real, w: real)
    requires v <= w
    ensures CountBelow(ts, v) <= CountBelow(ts, w)
  {
    if |ts| > 0 {
      CountBelowMonotone(ts[1..], v, w);
    }
  }

  /** A faster wind never gets a lower level, on either scale. */
  lemma WindLevelsMonotone(v: real, w: real)
    requires v <= w
    ensures WindLevelMs(v) <= WindLevelMs(w)
    ensures WindLevelKmh(v) <= WindLevelKmh(w)
  {
    WindLevelMsCountsThresholds(v);
    WindLevelMsCountsThresholds(w);
    CountAtMostMonotone(MsThresholds, v, w);
    WindLevelKmhCountsThresholds(v);
    WindLevelKmhCountsThresholds(w);
    CountBelowMonotone(KmhThresholds, v, w);
  }

  /** The sixteen direction names, clockwise from north. */
  const Compass16: seq<string> :=
    ["北风", "北东北风", "东北风", "东东北风", "东风", "东东南风", "东南风", "南东南风",
     "南风", "南西南风", "西南风", "西西南风", "西风", "西西北风", "西北风", "北西北风"]

  /**
   * The branch of `WindUtil.getWindDirectionDetail` that `windangle` takes,
   * as the position of its name in `Compass16`.
   */
  function DirectionSector(windangle: real): (i: nat)
    ensures i < 16
  {
    if windangle <= 11.25 || windangle > 348.75 then 0
    else if windangle > 11.25 && windangle <= 33.75 then 1
    else if windangle > 33.75 && windangle <= 56.25 then 2
    else if windangle > 56.25 && windangle <= 78.75 then 3
    else if windangle > 78.75 && windangle <= 101.25 then 4
    else if windangle > 101.25 && windangle <= 123.75 then 5
    else if windangle > 123.75 && windangle <= 146.25 then 6
    else if windangle > 146.25 && windangle <= 168.75 then 7
    else if windangle > 168.75 && windangle <= 191.25 then 8
    else if windangle > 191.25 && windangle <= 213.75 then 9
    else if windangle > 213.75 && windangle <= 236.25 then 10
    else if windangle > 236.25 && windangle <= 258.75 then 11
    else if windangle > 258.75 && windangle <= 281.25 then 12
    else if windangle > 281.25 && windangle <= 303.75 then 13
    else if windangle > 303.75 && windangle <= 326.25 then 14
    else if windangle > 326.25 && windangle <= 348.75 then 15
    else 0
  }

  /** `WindUtil.getWindDirectionDetail`: the name of the sector holding `windangle`. */
  function WindDirectionDetail(windangle: real): (name: string)
  {
    Compass16[DirectionSector(windangle)]
  }

  /**
   * For angles in [0, 360) the name is that of sector
   * ceil((angle - 11.25) / 22.5) mod 16: sectors are 22.5 degrees wide,
   * centred on the sixteen compass points, closed on their clockwise edge.
   */
  lemma WindDirectionDetailBySector(windangle: real)
    requires 0.0 <= windangle < 360.0
    ensures WindDirectionDetail(windangle) == Compass16[Ceil((windangle - 11.25) / 22.5) % 16]
  {
    var k := Ceil((windangle - 11.25) / 22.5);
    assert 22.5 * k as real - 11.25 < windangle <= 22.5 * k as real + 11.25;
    if windangle <= 191.25 {
      NorthernSectors(windangle, k);
    } else {
      SouthernSectors(windangle, k);
    }
  }

  /** The sectors from north clockwise to south. */
  lemma NorthernSectors(windangle: real, k: int)
    requires 0.0 <= windangle <= 191.25
    requires 22.5 * k as real - 11.25 < windangle <= 22.5 * k as real + 11.25
    ensures 0 <= k <= 8 && DirectionSector(windangle) == k
  {
    if windangle <= 11.25 {
      assert k == 0;
    } else if windangle <= 33.75 {
      assert k == 1;
    } else if windangle <= 56.25 {
      assert k == 2;
    } else if windangle <= 78.75 {
      assert k == 3;
    } else if windangle <= 101.25 {
      assert k == 4;
    } else if windangle <= 123.75 {
      assert k == 5;
    } else if windangle <= 146.25 {
      assert k == 6;
    } else if windangle <= 168.75 {
      assert k == 7;
    } else {
      assert k == 8;
    }
  }

  /** The sectors from south clockwise back to north. */
  lemma SouthernSectors(windangle: real, k: int)
    requires 191.25 < windangle < 360.0
    requires 22.5 * k as real - 11.25 < windangle <= 22.5 * k as real + 11.25
    ensures 9 <= k <= 16 && DirectionSector(windangle) == k % 16
  {
    if windangle <= 213.75 {
      assert k == 9;
    } else if windangle <= 236.25 {
      assert k == 10;
    } else if windangle <= 258.75 {
      assert k == 11;
    } else if windangle <= 281.25 {
      assert k == 12;
    } else if windangle <= 303.75 {
      assert k == 13;
    } else if windangle <= 326.25 {
      assert k == 14;
    } else if windangle <= 348.75 {
      assert k == 15;
    } else {
      assert k == 16;
    }
  }

  /** `WindFlowLayer.meterSec2Knots`. */
  function MeterSecToKnots(meters: real): (knots: real)
    ensures knots * 0.514 == meters
  {
    meters / 0.514
  }

  /** `WindFlowLayer.meterSec2kilometerHour`. */
  function MeterSecToKmh(meters: real): (kmh: real)
    ensures kmh / 3.6 == meters
  {
    meters * 3.6
  }

  /**
   * `WindFlowLayer.vectorToSpeed` after the magnitude of the (u, v) vector
   * has been taken: km/h for "km/h", knots for "kt", m/s otherwise.
   */
  function VectorToSpeed(velocityAbs: real, unit: string): (speed: real)
    ensures unit == "km/h" ==> speed / 3.6 == velocityAbs
    ensures unit == "kt" ==> speed * 0.514 == velocityAbs
    ensures unit != "km/h" && unit != "kt" ==> speed == velocityAbs
  {
    if unit == "km/h" then MeterSecToKmh(velocityAbs)
    else if unit == "kt" then MeterSecToKnots(velocityAbs)
    else velocityAbs
  }

  /** Unit conversion preserves the order of speeds. */
  lemma VectorToSpeedMonotone(a: real, b: real, unit: string)
    requires a <= b
    ensures VectorToSpeed(a, unit) <= VectorToSpeed(b, unit)
  {
  }
}
