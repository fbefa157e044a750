/**
 * The V5 provider: its single `/prediction` response becomes a normalised
 * curve over a fixed 10-horizon table, with five keys per point.
 */
module V5CurveProvider {
  import opened Json
  import opened HorizonTable
  import opened PollAlignment

  /** The provider's horizon table, in emission order. */
  const Horizons: seq<string> := ["+1H", "+2H", "+4H", "+6H", "+8H", "+12H", "+18H", "+24H", "+36H", "+48H"]

  /** One horizon of the raw `forward_curve` object (only these keys are read). */
  datatype RawPoint = RawPoint(targetPrice: Option<real>, pctChange: Option<real>, lower90: Option<real>, upper90: Option<real>)

  /** The `/prediction` response. */
  datatype Response = Response(
    forwardCurve: map<string, RawPoint>,
    timestamp: Option<string>,
    currentPrice: Option<real>,
    direction: Option<string>,
    confidenceLevel: Option<string>,
    confidenceScore: Option<real>)

  /** One element of the normalised `curve` list: exactly five keys. */
  datatype Point = Point(horizon: string, targetPrice: real, pctChange: real, lower90: real, upper90: real)

  datatype Curve = Curve(
    kind: string,
    timestamp: string,
    modelTimestamp: Option<string>,
    currentPrice: real,
    direction: string,
    confidenceLevel: string,
    confidenceScore: real,
    curve: seq<Point>,
    model: string)

  function MakePoint(h: string, p: RawPoint): Point {
    Point(h, p.targetPrice.GetOr(0.0), p.pctChange.GetOr(0.0), p.lower90.GetOr(0.0), p.upper90.GetOr(0.0))
  }

  /** The points the loop over `labels` appends, in label order. */
  function CurvePoints(labels: seq<string>, forwardCurve: map<string, RawPoint>): seq<Point> {
    if labels == [] then []
    else
      var n := |labels| - 1;
      var h := labels[n];
      CurvePoints(labels[..n], forwardCurve) + if h in forwardCurve then [MakePoint(h, forwardCurve[h])] else []
  }

  /** The value `_transform_response` returns; `now` is the fetch time. */
  function Transform(data: Response, now: string): Curve {
    Curve(
      kind := "forward_curve",
      timestamp := now,
      modelTimestamp := data.timestamp,
      currentPrice := data.currentPrice.GetOr(0.0),
      direction := data.direction.GetOr("NEUTRAL"),
      confidenceLevel := data.confidenceLevel.GetOr("LOW"),
      confidenceScore := data.confidenceScore.GetOr(0.0),
      curve := CurvePoints(Horizons, data.forwardCurve),
      model := "V5 Flash (LSTM+TFT)")
  }

  method TransformResponse(data: Response, now: string) returns (r: Curve)
    ensures r == Transform(data, now)
  {
    var forwardCurve := data.forwardCurve;
    var curvePoints: seq<Point> := [];
    for k := 0 to |Horizons|
      invariant curvePoints == CurvePoints(Horizons[..k], forwardCurve)
    {
      assert Horizons[..k + 1][..k] == Horizons[..k];
      var horizon := Horizons[k];
      if horizon in forwardCurve {
        curvePoints := curvePoints + [MakePoint(horizon, forwardCurve[horizon])];
      }
    }
    assert Horizons[..|Horizons|] == Horizons;
    r := Curve("forward_curve", now, data.timestamp, data.currentPrice.GetOr(0.0), data.direction.GetOr("NEUTRAL"),
      data.confidenceLevel.GetOr("LOW"), data.confidenceScore.GetOr(0.0), curvePoints, "V5 Flash (LSTM+TFT)");
  }

  /**
   * The horizon labels of a point list, in order. The V4 provider has the
   * same helper over its own eleven-key point type; the two point types
   * share no common supertype to write it once over.
   */
  function Labels(points: seq<Point>): (r: seq<string>)
    ensures |r| == |points| && forall i :: 0 <= i < |points| ==> r[i] == points[i].horizon
  {
    if points == [] then [] else Labels(points[..|points| - 1]) + [points[|points| - 1].horizon]
  }

  /** Each emitted point carries its raw point's four values, 0 standing in for a missing one. */
  ghost predicate FromRaw(p: Point, forwardCurve: map<string, RawPoint>) {
    && p.horizon in forwardCurve
    && var raw := forwardCurve[p.horizon];
    && p.targetPrice == raw.targetPrice.GetOr(0.0)
    && p.pctChange == raw.pctChange.GetOr(0.0)
    && p.lower90 == raw.lower90.GetOr(0.0)
    && p.upper90 == raw.upper90.GetOr(0.0)
    && (raw.targetPrice.None? ==> p.targetPrice == 0.0)
  }

  lemma {:induction false} CurvePointsLabels(labels: seq<string>, forwardCurve: map<string, RawPoint>)
    ensures Labels(CurvePoints(labels, forwardCurve)) == PresentLabels(labels, forwardCurve.Keys)
    ensures forall p :: p in CurvePoints(labels, forwardCurve) ==> FromRaw(p, forwardCurve)
  {
    if labels != [] {
      var n := |labels| - 1;
      var pts := CurvePoints(labels, forwardCurve);
      var init := CurvePoints(labels[..n], forwardCurve);
      CurvePointsLabels(labels[..n], forwardCurve);
      if labels[n] in forwardCurve {
        assert pts[..|pts| - 1] == init;
      } else {
        assert pts == init;
      }
    }
  }

  /**
   * The normalised V5 curve: exactly the table horizons present in
   * `forward_curve`, in table order without repeats, at most ten, each
   * with its raw values or 0; the header carries the fixed tag and model
   * name, and `dict.get` defaults stand in for missing header keys.
   */
  lemma TransformShape(data: Response, now: string)
    ensures var r := Transform(data, now);
      && (forall l :: l in Labels(r.curve) <==> l in Horizons && l in data.forwardCurve)
      && |r.curve| <= |Horizons|
      && (forall i, j :: 0 <= i < j < |r.curve| ==>
            IndexOf(Horizons, r.curve[i].horizon) < IndexOf(Horizons, r.curve[j].horizon))
      && (forall p :: p in r.curve ==> FromRaw(p, data.forwardCurve))
      && r.kind == "forward_curve" && r.timestamp == now && r.modelTimestamp == data.timestamp
      && r.model == "V5 Flash (LSTM+TFT)"
      && r.currentPrice == data.currentPrice.GetOr(0.0)
      && r.direction == data.direction.GetOr("NEUTRAL")
      && r.confidenceLevel == data.confidenceLevel.GetOr("LOW")
      && r.confidenceScore == data.confidenceScore.GetOr(0.0)
  {
    var r := Transform(data, now);
    CurvePointsLabels(Horizons, data.forwardCurve);
    PresentLabelsMembers(Horizons, data.forwardCurve.Keys);
    PresentLabelsInTableOrder(Horizons, data.forwardCurve.Keys);
    var labels := Labels(r.curve);
    forall i, j | 0 <= i < j < |r.curve|
      ensures IndexOf(Horizons, r.curve[i].horizon) < IndexOf(Horizons, r.curve[j].horizon)
    {
      assert labels[i] == r.curve[i].horizon && labels[j] == r.curve[j].horizon;
    }
  }

  /** The sleep after a V5 poll: 2 s later than the mark, so between 3 s and 302 s. */
  function NextPollWait(minute: Minute, second: Second): (w: PollWait)
    ensures 3 <= w.secondsToWait <= 302
    ensures 0 <= w.nextMark < 60 && OnMark(w.nextMark)
    ensures (minute + w.minutesToWait) % 60 == w.nextMark
    ensures forall m :: minute < m < minute + w.minutesToWait ==> !OnMark(m)
    ensures minute >= 55 <==> w.nextMark == 0
    ensures minute >= 55 ==> w.minutesToWait == 60 - minute
  {
    WaitForNextMark(minute, second, 2)
  }
}
