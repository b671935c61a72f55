/** Points of a stored series. */
module TimeSeries {
  import opened Wrappers

  /** A point at a time in milliseconds; a point may be stored without a number. */
  datatype TsPoint = TsPoint(ts: int, value: Option<real>)

  ghost predicate Increasing(times: seq<int>) {
    forall i, j :: 0 <= i < j < |times| ==> times[i] < times[j]
  }

  ghost predicate InTimeOrder(points: seq<TsPoint>) {
    forall i, j :: 0 <= i < j < |points| ==> points[i].ts <= points[j].ts
  }
}
