/** The limits of IEEE double precision that the viewer uses as sentinels. */
module DoubleLimits {
  /** std::numeric_limits<double>::max(), written out exactly: (2^53 - 1) * 2^971. */
  const DblMax: real := 179769313486231570814527423731704356798070567525844996598917476803157260780028538760589558632766878171540458953514382464234321326889464182768467546703537516986049910576551282076245490090389328944075868508455133942304583236903222948165808559332123348274797826204144723168738177180919299881250404026184124858368.0

  /** std::numeric_limits<double>::lowest(). */
  const DblLowest: real := -DblMax
}

/**
 * The display time units of the timeline viewer and the unit selection
 * (TimelineViewer::getAvailableTimeUnits, convertTime, detectBestTimeUnit and
 * getTimeUnitInfo in Viewer/Viewer.cpp). All values are nanoseconds.
 */
module TimeUnits {
  import opened DoubleLimits

  datatype TimeUnit = Nanoseconds | Microseconds | Milliseconds | Seconds | Minutes | Hours

  /** One row of the unit table: a unit is chosen for values in [minThreshold, maxThreshold). */
  datatype TimeUnitInfo = TimeUnitInfo(
    unit: TimeUnit, symbol: string, name: string,
    factorFromNanoseconds: real, minThreshold: real, maxThreshold: real)

  /** The position of a unit in the enumeration, smallest unit first. */
  function Ordinal(u: TimeUnit): nat
  {
    match u
    case Nanoseconds => 0
    case Microseconds => 1
    case Milliseconds => 2
    case Seconds => 3
    case Minutes => 4
    case Hours => 5
  }

  predicate InBand(x: real, info: TimeUnitInfo) { info.minThreshold <= x < info.maxThreshold }

  /**
   * getAvailableTimeUnits: one row per unit, in enumeration order; the bands
   * are consecutive, start at 0 and end at the largest double, and from
   * microseconds on a unit's band starts at one of that unit.
   */
  function AvailableTimeUnits(): (units: seq<TimeUnitInfo>)
    ensures |units| == 6
    ensures forall i :: 0 <= i < 6 ==> Ordinal(units[i].unit) == i
    ensures forall i :: 0 <= i < 6 ==> 0.0 <= units[i].minThreshold < units[i].maxThreshold && 0.0 < units[i].factorFromNanoseconds
    ensures forall i :: 0 <= i < 5 ==> units[i].maxThreshold == units[i + 1].minThreshold
    ensures forall i :: 1 <= i < 6 ==> units[i].factorFromNanoseconds == units[i].minThreshold
    ensures units[0].minThreshold == 0.0 && units[5].maxThreshold == DblMax
  {
    [ TimeUnitInfo(Nanoseconds, "ns", "Nanoseconds", 1.0, 0.0, 1000.0),
      TimeUnitInfo(Microseconds, "us", "Microseconds", 1000.0, 1000.0, 1000000.0),
      TimeUnitInfo(Milliseconds, "ms", "Milliseconds", 1000000.0, 1000000.0, 1000000000.0),
      TimeUnitInfo(Seconds, "s", "Seconds", 1000000000.0, 1000000000.0, 60000000000.0),
      TimeUnitInfo(Minutes, "min", "Minutes", 60000000000.0, 60000000000.0, 3600000000000.0),
      TimeUnitInfo(Hours, "h", "Hours", 3600000000000.0, 3600000000000.0, DblMax) ]
  }

  /** The bands split [0, DBL_MAX): every such value lies in exactly one of them. */
  lemma {:induction false} BandsPartition(x: real, i: nat)
    requires 0.0 <= x < DblMax && i < 6
    ensures InBand(x, AvailableTimeUnits()[i]) <==> i == BandIndex(x)
  {
    var units := AvailableTimeUnits();
    if i < BandIndex(x) {
      assert units[i].maxThreshold <= units[BandIndex(x) - 1].maxThreshold == units[BandIndex(x)].minThreshold by {
        BandsIncrease(i, BandIndex(x) - 1);
      }
    } else if i > BandIndex(x) {
      assert units[BandIndex(x)].maxThreshold <= units[i].minThreshold by {
        BandsIncrease(BandIndex(x), i - 1);
      }
    }
  }

  lemma {:induction false} BandsIncrease(i: nat, j: nat)
    requires i <= j < 6
    ensures AvailableTimeUnits()[i].maxThreshold <= AvailableTimeUnits()[j].maxThreshold
    ensures j < 5 ==> AvailableTimeUnits()[i].maxThreshold <= AvailableTimeUnits()[j + 1].minThreshold
  {
    if i < j { BandsIncrease(i, j - 1); }
  }

  /** The index of the band holding a value of [0, DBL_MAX). */
  function BandIndex(x: real): (i: nat)
    requires 0.0 <= x < DblMax
    ensures i < 6 && InBand(x, AvailableTimeUnits()[i])
  {
    if x < 1000.0 then 0
    else if x < 1000000.0 then 1
    else if x < 1000000000.0 then 2
    else if x < 60000000000.0 then 3
    else if x < 3600000000000.0 then 4
    else 5
  }

  lemma CoveredBelowMax(x: real)
    ensures 0.0 <= x < DblMax ==> InBand(x, AvailableTimeUnits()[BandIndex(x)])
  {
  }

  function Abs(x: real): real { if x < 0.0 then -x else x }

  /** The magnitude detectBestTimeUnit decides on: max(|min|, |max|). */
  function DetectionRange(minNs: real, maxNs: real): (range: real)
    ensures 0.0 <= range && Abs(minNs) <= range && Abs(maxNs) <= range
    ensures range == Abs(minNs) || range == Abs(maxNs)
  {
    if Abs(minNs) >= Abs(maxNs) then Abs(minNs) else Abs(maxNs)
  }

  /** The unit of the band holding max(|min|, |max|), or Hours past the last band. */
  function BestTimeUnit(minNs: real, maxNs: real): (u: TimeUnit)
    ensures var range := DetectionRange(minNs, maxNs);
      range < DblMax ==> Ordinal(u) == BandIndex(range) && InBand(range, AvailableTimeUnits()[Ordinal(u)])
  {
    var range := DetectionRange(minNs, maxNs);
    if range < DblMax then AvailableTimeUnits()[BandIndex(range)].unit else Hours
  }

  /**
   * detectBestTimeUnit: the first unit of the table whose band holds
   * max(|min|, |max|), and Hours past the last band.
   */
  method DetectBestTimeUnit(minNs: real, maxNs: real) returns (u: TimeUnit)
    ensures u == BestTimeUnit(minNs, maxNs)
    ensures var range := DetectionRange(minNs, maxNs);
      (range < DblMax ==> InBand(range, AvailableTimeUnits()[Ordinal(u)])) &&
      (range >= DblMax ==> u == Hours)
  {
    var units := AvailableTimeUnits();
    var range := DetectionRange(minNs, maxNs);
    var i := 0;
    while i < |units|
      invariant 0 <= i <= |units|
      invariant forall j :: 0 <= j < i ==> !InBand(range, units[j])
    {
      if range >= units[i].minThreshold && range < units[i].maxThreshold {
        BandsPartition(range, i);
        return units[i].unit;
      }
      i := i + 1;
    }
    CoveredBelowMax(range);
    return Hours;
  }

  /** getTimeUnitInfo: the row of the table for the unit (the fallback to the first row is never taken). */
  method GetTimeUnitInfo(u: TimeUnit) returns (info: TimeUnitInfo)
    ensures info == AvailableTimeUnits()[Ordinal(u)]
    ensures info.unit == u
  {
    var units := AvailableTimeUnits();
    info := units[0];
    var i := 0;
    while i < |units|
      invariant 0 <= i <= |units|
      invariant forall j :: 0 <= j < i ==> units[j].unit != u
      invariant i <= Ordinal(u)
    {
      if units[i].unit == u {
        info := units[i];
        break;
      }
      i := i + 1;
    }
  }

  /** convertTime: nanoseconds expressed in the unit. */
  method ConvertTime(nanoseconds: real, target: TimeUnit) returns (r: real)
    ensures r * AvailableTimeUnits()[Ordinal(target)].factorFromNanoseconds == nanoseconds
  {
    var info := GetTimeUnitInfo(target);
    r := nanoseconds / info.factorFromNanoseconds;
  }
}
