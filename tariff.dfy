/** The per-point tariff transform of the spot-price script: each raw price
    point from the pricing API becomes a computed point carrying the spot
    price with VAT and the consumer total with tax, margin and the
    time-of-day transmission fee. */
module Tariff {

  /** A local hour of day on the 24-hour clock. */
  type Hour = h: int | 0 <= h < 24

  /** The five tariff constants read from the configuration's price section. */
  datatype Tariffs = Tariffs(
    sahkovero: real,       // electricity tax per kWh
    valityspalkkio: real,  // retailer margin per kWh
    paivasiirto: real,     // day transmission fee per kWh
    yosiirto: real,        // night transmission fee per kWh
    alv: real)             // VAT in percent

  /** A raw point as fetched. `hour` is the local hour of `timestamp`, which
      the script obtains from the timezone library. */
  datatype RawPoint = RawPoint(timestamp: int, price: real, hour: Hour)

  /** A computed point: the list `[timestamp, spot, total]` of the script. */
  datatype PricePoint = PricePoint(timestamp: int, spot: real, total: real)

  /** The hours the script lists as the night window, in its own order. */
  const NIGHT_HOURS: seq<int> := [22, 23, 0, 1, 2, 3, 4, 5, 6]

  /** The script's test: whether the hour is in its night list. */
  predicate IsNightHour(h: Hour)
    ensures IsNightHour(h) <==> (h <= 6 || 22 <= h)
  {
    assert h <= 6 || 22 <= h ==> NIGHT_HOURS[if h >= 22 then h - 22 else h + 2] == h;
    h in NIGHT_HOURS
  }

  /** The day window stated independently of the night list. */
  predicate IsDayHour(h: Hour) {
    7 <= h <= 21
  }

  /** Spot price with VAT, per kWh: the raw price over ten, times 1 + alv/100. */
  function SpotPrice(price: real, t: Tariffs): (spot: real)
    ensures spot * 1000.0 == price * (100.0 + t.alv)
    ensures t.alv == 0.0 ==> spot * 10.0 == price
    ensures 0.0 <= price && -100.0 <= t.alv ==> 0.0 <= spot
  {
    price / 10.0 * (1.0 + t.alv / 100.0)
  }

  /** The transmission fee the hour selects. */
  function Fee(h: Hour, t: Tariffs): (fee: real)
    ensures 7 <= h <= 21 ==> fee == t.paivasiirto
    ensures (h <= 6 || 22 <= h) ==> fee == t.yosiirto
  {
    if IsNightHour(h) then t.yosiirto else t.paivasiirto
  }

  /** The part of the total that does not depend on the hour. */
  function BaseCharge(t: Tariffs): real {
    t.sahkovero + t.valityspalkkio
  }

  /** The transform of one raw point. */
  function PointPrice(p: RawPoint, t: Tariffs): (q: PricePoint)
    ensures q.timestamp == p.timestamp
    ensures q.spot * 10.0 == p.price * (1.0 + t.alv / 100.0)
    ensures q.total - q.spot == t.sahkovero + t.valityspalkkio
              + (if IsDayHour(p.hour) then t.paivasiirto else t.yosiirto)
  {
    var spot := SpotPrice(p.price, t);
    if IsNightHour(p.hour) then
      PricePoint(p.timestamp, spot, spot + t.sahkovero + t.valityspalkkio + t.yosiirto)
    else
      PricePoint(p.timestamp, spot, spot + t.sahkovero + t.valityspalkkio + t.paivasiirto)
  }

  /** The whole transform: one computed point per raw point, in input order. */
  function Compute(points: seq<RawPoint>, t: Tariffs): (out: seq<PricePoint>)
    ensures |out| == |points|
    ensures forall i :: 0 <= i < |points| ==> out[i] == PointPrice(points[i], t)
  {
    if points == [] then [] else [PointPrice(points[0], t)] + Compute(points[1..], t)
  }

  /** The loop of the script's main block, appending one point per iteration. */
  method ComputeDataPoints(spotData: seq<RawPoint>, t: Tariffs) returns (dataPoints: seq<PricePoint>)
    ensures dataPoints == Compute(spotData, t)
    ensures |dataPoints| == |spotData|
    ensures forall i :: 0 <= i < |spotData| ==>
              dataPoints[i].timestamp == spotData[i].timestamp
              && dataPoints[i].spot == SpotPrice(spotData[i].price, t)
              && dataPoints[i].total == dataPoints[i].spot + BaseCharge(t) + Fee(spotData[i].hour, t)
  {
    dataPoints := [];
    for i := 0 to |spotData|
      invariant dataPoints == Compute(spotData[..i], t)
    {
      ComputeAppend(spotData[..i], [spotData[i]], t);
      assert spotData[..i + 1] == spotData[..i] + [spotData[i]];
      dataPoints := dataPoints + [PointPrice(spotData[i], t)];
    }
    assert spotData[..|spotData|] == spotData;
  }

  /** The transform distributes over concatenation: it works point by point. */
  lemma {:induction false} ComputeAppend(a: seq<RawPoint>, b: seq<RawPoint>, t: Tariffs)
    ensures Compute(a + b, t) == Compute(a, t) + Compute(b, t)
  {
    if a == [] {
      assert a + b == b;
    } else {
      assert (a + b)[1..] == a[1..] + b;
      ComputeAppend(a[1..], b, t);
    }
  }

  /** Count and order: the i-th output carries the timestamp of the i-th input. */
  lemma ComputeKeepsTimestamps(points: seq<RawPoint>, t: Tariffs)
    ensures |Compute(points, t)| == |points|
    ensures forall i :: 0 <= i < |points| ==> Compute(points, t)[i].timestamp == points[i].timestamp
  {
  }

  /** The night and day windows partition the 24 hours. */
  lemma HoursPartition(h: Hour)
    ensures IsNightHour(h) <==> !IsDayHour(h)
    ensures IsNightHour(h) <==> (h <= 6 || h >= 22)
  {
    if h <= 6 || h >= 22 {
      assert NIGHT_HOURS[if h >= 22 then h - 22 else h + 2] == h;
    }
  }

  /** The night window as a set of hours. */
  function NightSet(): set<Hour> {
    set h: Hour | IsNightHour(h)
  }

  /** The day window as a set of hours. */
  function DaySet(): set<Hour> {
    set h: Hour | IsDayHour(h)
  }

  /** The night window is exactly nine hours, the day window the other fifteen,
      and together they cover every hour of the day exactly once. */
  lemma NightAndDaySets()
    ensures NightSet() == {0, 1, 2, 3, 4, 5, 6, 22, 23}
    ensures DaySet() == {7, 8, 9, 10, 11, 12, 13, 14, 15, 16, 17, 18, 19, 20, 21}
    ensures NightSet() * DaySet() == {}
    ensures forall h: int :: 0 <= h < 24 ==> h in NightSet() + DaySet()
  {
    forall h: Hour ensures (IsNightHour(h) <==> !IsDayHour(h)) && (IsNightHour(h) <==> (h <= 6 || h >= 22)) {
      HoursPartition(h);
    }
  }

  /** The boundary hours: 6 and 22 are night, 7 and 21 are day. */
  lemma WindowBoundaries(t: Tariffs)
    ensures IsNightHour(6) && IsNightHour(22) && IsDayHour(7) && IsDayHour(21)
    ensures Fee(6, t) == t.yosiirto && Fee(7, t) == t.paivasiirto
    ensures Fee(21, t) == t.paivasiirto && Fee(22, t) == t.yosiirto
  {
  }

  /** Every total exceeds its spot price by one of exactly two constants. */
  lemma TotalOverSpot(p: RawPoint, t: Tariffs)
    ensures var q := PointPrice(p, t);
      q.total - q.spot == BaseCharge(t) + t.paivasiirto
      || q.total - q.spot == BaseCharge(t) + t.yosiirto
    ensures var q := PointPrice(p, t);
      IsNightHour(p.hour) ==> q.total - q.spot == BaseCharge(t) + t.yosiirto
    ensures var q := PointPrice(p, t);
      !IsNightHour(p.hour) ==> q.total - q.spot == BaseCharge(t) + t.paivasiirto
  {
    HoursPartition(p.hour);
  }

  /** With 24 % VAT a raw price of 100 gives a spot price of 12.4. */
  lemma SpotPriceExample(t: Tariffs)
    requires t.alv == 24.0
    ensures SpotPrice(100.0, t) == 12.4
  {
  }

  /** A point at 03:00 local time with the night fee. */
  lemma NightTotalExample(ts: int)
    ensures var t := Tariffs(2.79372, 0.3996, 2.15, 1.43, 24.0);
      PointPrice(RawPoint(ts, 100.0, 3), t) == PricePoint(ts, 12.4, 17.02332)
  {
  }

  /** The same point at 12:00 local time with the day fee. */
  lemma DayTotalExample(ts: int)
    ensures var t := Tariffs(2.79372, 0.3996, 2.15, 1.43, 24.0);
      PointPrice(RawPoint(ts, 100.0, 12), t) == PricePoint(ts, 12.4, 17.74332)
  {
  }
}
