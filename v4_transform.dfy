/**
 * `_transform_response` of the V4 provider: the raw tracking response,
 * with the optional yesterday and history responses, becomes the
 * normalised curve over the provider's fixed 8-horizon table.
 */
module V4Transform {
  import opened Json
  import opened HorizonTable
  import opened V4Types
  import opened V4Stabilized

  /** One element of `curve_points` for horizon `h`, present in `forward_curve`. */
  function MakePoint(
    h: string, point: RawPoint, orig: OriginalPrediction, yest: RawPoint,
    stabilized: map<string, Stabilized>): V4Point
  {
    V4Point(
      horizon := h,
      targetPrice := point.price.GetOr(0.0),
      pctChange := point.pctChange.GetOr(0.0),
      lower90 := point.lower90.GetOr(0.0),
      upper90 := point.upper90.GetOr(0.0),
      isActual := point.isActual.GetOr(false),
      originalPrice := orig.originalPrice,
      originalPct := orig.originalPct,
      yesterdayPrice := yest.price,
      stabilizedPrice := if h in stabilized then stabilized[h].price else None,
      stabilizedTimestamp := if h in stabilized then stabilized[h].timestamp else None)
  }

  /** `yesterday_data.get("forward_curve", {})` when yesterday's data is truthy. */
  function YesterdayCurve(yesterday: Option<YesterdayResponse>): map<string, RawPoint> {
    if yesterday.Some? then yesterday.value.forwardCurve else map[]
  }

  /** The points the loop over `labels` appends, in label order. */
  function CurvePoints(
    labels: seq<string>, data: V4Response, yesterdayCurve: map<string, RawPoint>,
    stabilized: map<string, Stabilized>): seq<V4Point>
  {
    if labels == [] then []
    else
      var n := |labels| - 1;
      var h := labels[n];
      CurvePoints(labels[..n], data, yesterdayCurve, stabilized) +
        if h in data.forwardCurve then
          [MakePoint(h, data.forwardCurve[h], OriginalAt(data.originalPredictions, h), PointAt(yesterdayCurve, h), stabilized)]
        else []
  }

  function Header(data: V4Response, yesterday: Option<YesterdayResponse>, history: Option<seq<HistoryEntry>>, now: string): V4Header {
    V4Header(
      kind := "v4_forward_curve",
      timestamp := now,
      generatedAt := data.generatedAt,
      anchorTimestamp := data.anchorTimestamp,
      hoursElapsed := data.hoursElapsed.GetOr(0.0),
      currentPrice := data.currentPrice.GetOr(0.0),
      anchorPrice := data.currentPrice.GetOr(0.0),
      direction := data.direction.GetOr("neutral"),
      regime := data.regime.GetOr("neutral"),
      curveQuality := data.curveQuality.GetOr(0.0),
      model := "V4.32",
      hasYesterday := yesterday.Some?,
      hasHistory := history.Some? && |history.value| > 0)
  }

  /** The value `_transform_response` returns; `now` is the fetch time. */
  function Transform(data: V4Response, yesterday: Option<YesterdayResponse>, history: Option<seq<HistoryEntry>>, now: string): V4Curve {
    var stabilized := StabilizedPredictions(history, data.forwardCurve);
    V4Curve(Header(data, yesterday, history, now), CurvePoints(Horizons, data, YesterdayCurve(yesterday), stabilized))
  }

  method TransformResponse(data: V4Response, yesterday: Option<YesterdayResponse>, history: Option<seq<HistoryEntry>>, now: string)
    returns (r: V4Curve)
    ensures r == Transform(data, yesterday, history, now)
  {
    var forwardCurve := data.forwardCurve;
    var yesterdayCurve := YesterdayCurve(yesterday);
    var stabilized := ExtractStabilized(history, forwardCurve);
    var curvePoints: seq<V4Point> := [];
    for k := 0 to |Horizons|
      invariant curvePoints == CurvePoints(Horizons[..k], data, yesterdayCurve, stabilized)
    {
      var horizon := Horizons[k];
      assert Horizons[..k + 1][..k] == Horizons[..k];
      if horizon in forwardCurve {
        var orig := OriginalAt(data.originalPredictions, horizon);
        var yest := PointAt(yesterdayCurve, horizon);
        curvePoints := curvePoints + [MakePoint(horizon, forwardCurve[horizon], orig, yest, stabilized)];
      }
    }
    assert Horizons[..|Horizons|] == Horizons;
    r := V4Curve(Header(data, yesterday, history, now), curvePoints);
  }

  /** The horizon labels of a point list, in order. */
  function Labels(points: seq<V4Point>): (r: seq<string>)
    ensures |r| == |points| && forall i :: 0 <= i < |points| ==> r[i] == points[i].horizon
  {
    if points == [] then [] else Labels(points[..|points| - 1]) + [points[|points| - 1].horizon]
  }

  /**
   * Each emitted point takes its values from the raw point of its label,
   * 0 (False for `is_actual`) standing in for a missing value.
   */
  ghost predicate FromRaw(p: V4Point, data: V4Response, stabilized: map<string, Stabilized>) {
    && p.horizon in data.forwardCurve
    && var raw := data.forwardCurve[p.horizon];
    && p.targetPrice == raw.price.GetOr(0.0)
    && p.pctChange == raw.pctChange.GetOr(0.0)
    && p.lower90 == raw.lower90.GetOr(0.0)
    && p.upper90 == raw.upper90.GetOr(0.0)
    && p.isActual == raw.isActual.GetOr(false)
    && (raw.price.None? ==> p.targetPrice == 0.0)
    && (raw.isActual.None? ==> !p.isActual)
    && p.originalPrice == OriginalAt(data.originalPredictions, p.horizon).originalPrice
    && p.stabilizedPrice == (if p.horizon in stabilized then stabilized[p.horizon].price else None)
  }

  lemma {:induction false} CurvePointsLabels(
    labels: seq<string>, data: V4Response, yesterdayCurve: map<string, RawPoint>, stabilized: map<string, Stabilized>)
    ensures Labels(CurvePoints(labels, data, yesterdayCurve, stabilized)) == PresentLabels(labels, data.forwardCurve.Keys)
    ensures forall p :: p in CurvePoints(labels, data, yesterdayCurve, stabilized) ==> FromRaw(p, data, stabilized)
  {
    if labels != [] {
      var n := |labels| - 1;
      var pts := CurvePoints(labels, data, yesterdayCurve, stabilized);
      var init := CurvePoints(labels[..n], data, yesterdayCurve, stabilized);
      CurvePointsLabels(labels[..n], data, yesterdayCurve, stabilized);
      if labels[n] in data.forwardCurve {
        assert pts[..|pts| - 1] == init;
      } else {
        assert pts == init;
      }
    }
  }

  /**
   * The normalised V4 curve: exactly the table horizons present in
   * `forward_curve`, in table order without repeats, at most eight of them,
   * each filled from its raw point with the `dict.get` defaults; the
   * header's type tag is fixed and its anchor price is the current price.
   */
  lemma TransformShape(data: V4Response, yesterday: Option<YesterdayResponse>, history: Option<seq<HistoryEntry>>, now: string)
    ensures var r := Transform(data, yesterday, history, now);
      && (forall l :: l in Labels(r.curve) <==> l in Horizons && l in data.forwardCurve)
      && |r.curve| <= |Horizons|
      && (forall i, j :: 0 <= i < j < |r.curve| ==>
            IndexOf(Horizons, r.curve[i].horizon) < IndexOf(Horizons, r.curve[j].horizon))
      && (forall p :: p in r.curve ==> FromRaw(p, data, StabilizedPredictions(history, data.forwardCurve)))
      && r.header.kind == "v4_forward_curve"
      && r.header.anchorPrice == r.header.currentPrice == data.currentPrice.GetOr(0.0)
      && (r.header.hasHistory <==> history.Some? && history.value != [])
  {
    var r := Transform(data, yesterday, history, now);
    var stabilized := StabilizedPredictions(history, data.forwardCurve);
    CurvePointsLabels(Horizons, data, YesterdayCurve(yesterday), stabilized);
    PresentLabelsMembers(Horizons, data.forwardCurve.Keys);
    PresentLabelsInTableOrder(Horizons, data.forwardCurve.Keys);
    var labels := Labels(r.curve);
    forall i, j | 0 <= i < j < |r.curve|
      ensures IndexOf(Horizons, r.curve[i].horizon) < IndexOf(Horizons, r.curve[j].horizon)
    {
      assert labels[i] == r.curve[i].horizon && labels[j] == r.curve[j].horizon;
    }
  }
}
