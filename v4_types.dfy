/**
 * The values the V4 (anchor-relative) provider reads from its API and the
 * values it produces: raw horizon points, history entries, the normalised
 * curve, stored snapshots and the history-annotated curve.
 */
module V4Types {
  import opened Json

  /** The provider's horizon table, in emission order. */
  const Horizons: seq<string> := ["+1H", "+2H", "+4H", "+6H", "+8H", "+12H", "+18H", "+24H"]

  /** `_max_history_size`: snapshots kept for prediction-evolution tracking. */
  const MaxHistorySize: nat := 300

  /**
   * One horizon of a raw `forward_curve` object. `otherKeys` records
   * whether the object carries keys the provider never reads; it matters
   * only for truthiness (an object is falsy exactly when it has no keys).
   */
  datatype RawPoint = RawPoint(
    price: Option<real>,
    pctChange: Option<real>,
    lower90: Option<real>,
    upper90: Option<real>,
    isActual: Option<bool>,
    otherKeys: bool)
  {
    /** The object is `{}`: Python treats it as false. */
    predicate IsEmpty() {
      price.None? && pctChange.None? && lower90.None? && upper90.None? && isActual.None? && !otherKeys
    }

    /** `point.get("is_actual", False)` tested for truth. */
    predicate Actual() {
      TruthyBool(isActual)
    }
  }

  const EmptyPoint: RawPoint := RawPoint(None, None, None, None, None, false)

  /** `curve.get(horizon, {})`. */
  function PointAt(m: map<string, RawPoint>, h: string): RawPoint {
    if h in m then m[h] else EmptyPoint
  }

  /** One horizon of `original_predictions`. */
  datatype OriginalPrediction = OriginalPrediction(
    originalPrice: Option<real>,
    originalPct: Option<real>,
    stabilizedPrice: Option<real>,
    stabilizedPct: Option<real>)

  const NoOriginal: OriginalPrediction := OriginalPrediction(None, None, None, None)

  /** `original_predictions.get(horizon, {})`. */
  function OriginalAt(m: map<string, OriginalPrediction>, h: string): OriginalPrediction {
    if h in m then m[h] else NoOriginal
  }

  /** One element of the `/history` response. */
  datatype HistoryEntry = HistoryEntry(timestamp: Option<string>, forwardCurve: map<string, RawPoint>)

  /** The `/prediction/tracking` response. */
  datatype V4Response = V4Response(
    forwardCurve: map<string, RawPoint>,
    originalPredictions: map<string, OriginalPrediction>,
    generatedAt: Option<string>,
    anchorTimestamp: Option<string>,
    hoursElapsed: Option<real>,
    currentPrice: Option<real>,
    direction: Option<string>,
    regime: Option<string>,
    curveQuality: Option<real>)

  /** The `/prediction/yesterday` response (only its `forward_curve` is read). */
  datatype YesterdayResponse = YesterdayResponse(forwardCurve: map<string, RawPoint>)

  /** An entry of the stabilized map: the price and when it was recorded. */
  datatype Stabilized = Stabilized(price: Option<real>, timestamp: Option<string>)

  /** One element of the normalised `curve` list. */
  datatype V4Point = V4Point(
    horizon: string,
    targetPrice: real,
    pctChange: real,
    lower90: real,
    upper90: real,
    isActual: bool,
    originalPrice: Option<real>,
    originalPct: Option<real>,
    yesterdayPrice: Option<real>,
    stabilizedPrice: Option<real>,
    stabilizedTimestamp: Option<string>)

  /** Every key of the normalised curve except `curve`. */
  datatype V4Header = V4Header(
    kind: string,
    timestamp: string,
    generatedAt: Option<string>,
    anchorTimestamp: Option<string>,
    hoursElapsed: real,
    currentPrice: real,
    anchorPrice: real,
    direction: string,
    regime: string,
    curveQuality: real,
    model: string,
    hasYesterday: bool,
    hasHistory: bool)

  datatype V4Curve = V4Curve(header: V4Header, curve: seq<V4Point>)

  /** A stored prediction of one horizon in a snapshot. */
  datatype SnapshotPrediction = SnapshotPrediction(price: real, originalPrice: Option<real>)

  /** One element of `_curve_history`. */
  datatype Snapshot = Snapshot(
    timestamp: string,
    hoursElapsed: real,
    anchorTimestamp: Option<string>,
    predictions: map<string, SnapshotPrediction>)

  /** One element of a horizon's `evolution` list. */
  datatype EvolutionEntry = EvolutionEntry(timestamp: string, hoursElapsed: real, price: real)

  /**
   * A curve point with the keys `_add_history_to_curve` adds; a None
   * `lastStabilizedPrice` means the key is absent.
   */
  datatype AnnotatedPoint = AnnotatedPoint(point: V4Point, lastStabilizedPrice: Option<real>, evolutionCount: nat)

  datatype AnnotatedCurve = AnnotatedCurve(header: V4Header, curve: seq<AnnotatedPoint>, historySize: nat)
}
