/**
 * `store_v4_data` of the accuracy store: one V4 curve becomes an upserted
 * daily-anchor row, upserted prediction rows for the horizons that have an
 * original prediction, and upserted accuracy-metric rows for those that
 * have become actual. The three SQLite tables are maps from their unique
 * keys to rows; `INSERT OR REPLACE` is a map update, and an exception
 * rolls the whole batch back.
 */
module AccuracyStorage {
  import opened Json
  import opened V4Types

  /** One point of the list the store walks, as `point.get` sees its keys. */
  datatype AccuracyPoint = AccuracyPoint(
    horizon: Field<string>,
    targetPrice: Field<real>,
    pctChange: Field<real>,
    isActual: Field<bool>)

  /**
   * The curve dict handed to the store. `curve` is None when the key is
   * missing; `forwardCurve` lists the `forward_curve` items in dict order.
   */
  datatype CurveData = CurveData(
    anchorTimestamp: Option<string>,
    currentPrice: Option<real>,
    regime: Option<string>,
    direction: Option<string>,
    curveQuality: Option<real>,
    curve: Option<seq<AccuracyPoint>>,
    forwardCurve: seq<(string, RawPoint)>,
    originalPredictions: map<string, OriginalPrediction>)

  /** A `daily_anchors` row, keyed by `anchor_date`. */
  datatype AnchorRow = AnchorRow(
    anchorTimestamp: string, anchorPrice: real, regime: string, direction: string, curveQuality: real, createdAt: string)

  /** A `predictions` row, keyed by `(anchor_date, horizon)`. */
  datatype PredictionRow = PredictionRow(
    originalPrice: real,
    originalPct: real,
    stabilizedPrice: Option<real>,
    stabilizedPct: Option<real>,
    actualPrice: Option<real>,
    actualPct: Option<real>,
    becameActualAt: Option<string>)

  /** An `accuracy_metrics` row, keyed by `(anchor_date, horizon)`. */
  datatype MetricsRow = MetricsRow(
    originalErrorPct: real,
    stabilizedErrorPct: Option<real>,
    originalAccuracy: real,
    stabilizedAccuracy: Option<real>,
    calculatedAt: string)

  /** `(anchor_date, horizon)`, the UNIQUE key of the two per-horizon tables. */
  type Key = (string, string)

  datatype Tables = Tables(
    anchors: map<string, AnchorRow>,
    predictions: map<Key, PredictionRow>,
    metrics: map<Key, MetricsRow>)

  /** `anchor_timestamp.split('T')[0]`: everything before the first 'T'. */
  function AnchorDate(ts: string): (d: string)
    ensures d <= ts
    ensures 'T' !in d
    ensures |d| < |ts| ==> ts[|d|] == 'T'
  {
    if ts == [] || ts[0] == 'T' then [] else [ts[0]] + AnchorDate(ts[1..])
  }

  /** A date joined to a time by 'T' splits back into that date. */
  lemma {:induction false} AnchorDateOfTimestamp(date: string, time: string)
    requires 'T' !in date
    ensures AnchorDate(date + "T" + time) == date
  {
    if date != [] {
      assert (date + "T" + time)[1..] == date[1..] + "T" + time;
      AnchorDateOfTimestamp(date[1..], time);
    }
  }

  function Abs(x: real): real {
    if x < 0.0 then -x else x
  }

  /** `abs(target - predicted) / target * 100`. */
  function ErrorPct(target: real, predicted: real): (e: real)
    requires target > 0.0
    ensures e >= 0.0
    ensures e == 0.0 <==> predicted == target
    ensures 0.0 <= predicted <= 2.0 * target ==> e <= 100.0
  {
    var d := Abs(target - predicted);
    DivAtMostOne(d, target);
    (d / target) * 100.0
  }

  lemma DivAtMostOne(d: real, t: real)
    requires t > 0.0
    ensures d <= t ==> d / t <= 1.0
  {
  }

  /** `100 - error_pct`: at most 100, and exactly 100 for a perfect prediction. */
  function Accuracy(target: real, predicted: real): (a: real)
    requires target > 0.0
    ensures a <= 100.0
    ensures a == 100.0 <==> predicted == target
    ensures 0.0 <= predicted <= 2.0 * target ==> a >= 0.0
  {
    100.0 - ErrorPct(target, predicted)
  }

  function AnchorRowOf(cd: CurveData, ts: string, now: string): AnchorRow {
    AnchorRow(ts, cd.currentPrice.GetOr(0.0), cd.regime.GetOr("UNKNOWN"), cd.direction.GetOr("UNKNOWN"), cd.curveQuality.GetOr(0.0), now)
  }

  /** The `forward_curve` items converted to points; `is_actual` defaults to False. */
  function Convert(items: seq<(string, RawPoint)>): (r: seq<AccuracyPoint>)
    ensures |r| == |items|
    ensures forall i :: 0 <= i < |items| ==>
      && GetOpt(r[i].horizon) == Some(items[i].0)
      && Get(r[i].targetPrice, 0.0) == items[i].1.price
      && Get(r[i].pctChange, 0.0) == items[i].1.pctChange
      && Get(r[i].isActual, false) == Some(items[i].1.isActual.GetOr(false))
  {
    seq(|items|, i requires 0 <= i < |items| =>
      AccuracyPoint(Present(items[i].0), FromOption(items[i].1.price), FromOption(items[i].1.pctChange),
        Present(items[i].1.isActual.GetOr(false))))
  }

  /** The points walked: the `curve` list when non-empty, else the converted `forward_curve`. */
  function Points(cd: CurveData): seq<AccuracyPoint> {
    if cd.curve.Some? && cd.curve.value != [] then cd.curve.value else Convert(cd.forwardCurve)
  }

  /** What one point does to the per-horizon tables. */
  datatype PointEffect =
    | Skip
    | Fail
    | Write(key: Key, row: PredictionRow, metrics: Option<MetricsRow>)

  /**
   * The metrics row for a point that became actual at a positive price;
   * the stabilized columns are filled only for a truthy stabilized price.
   */
  function MetricsRowOf(target: real, original: real, stabilized: Option<real>, now: string): (m: MetricsRow)
    requires target > 0.0
    ensures m.originalErrorPct == ErrorPct(target, original) && m.originalAccuracy == Accuracy(target, original)
    ensures TruthyReal(stabilized) ==>
      m.stabilizedErrorPct == Some(ErrorPct(target, stabilized.value)) && m.stabilizedAccuracy == Some(Accuracy(target, stabilized.value))
    ensures m.originalErrorPct == 0.0 <==> original == target
    ensures m.calculatedAt == now
    ensures m.originalErrorPct >= 0.0 && m.originalAccuracy <= 100.0
    ensures m.originalErrorPct + m.originalAccuracy == 100.0
    ensures m.stabilizedErrorPct.Some? <==> TruthyReal(stabilized)
    ensures m.stabilizedAccuracy.Some? <==> TruthyReal(stabilized)
    ensures TruthyReal(stabilized) ==>
      m.stabilizedErrorPct.value >= 0.0 && m.stabilizedErrorPct.value + m.stabilizedAccuracy.value == 100.0
  {
    MetricsRow(
      ErrorPct(target, original),
      if TruthyReal(stabilized) then Some(ErrorPct(target, stabilized.value)) else None,
      Accuracy(target, original),
      if TruthyReal(stabilized) then Some(Accuracy(target, stabilized.value)) else None,
      now)
  }

  /**
   * The effect of one point. Points without a truthy horizon, or whose
   * horizon has no truthy original price, are skipped. A None
   * `original_pct` violates its NOT NULL column, and an actual point whose
   * `target_price` is None makes `None > 0` raise: both abort the batch.
   * A missing `target_price` key reads as 0 and raises nothing.
   */
  function EffectOf(p: AccuracyPoint, date: string, originals: map<string, OriginalPrediction>, now: string): PointEffect {
    var horizon := GetOpt(p.horizon);
    if !TruthyString(horizon) then Skip
    else
      var h := horizon.value;
      var target := Get(p.targetPrice, 0.0);
      var pct := Get(p.pctChange, 0.0);
      var actual := TruthyBool(Get(p.isActual, false));
      var orig := OriginalAt(originals, h);
      if !TruthyReal(orig.originalPrice) then Skip
      else if orig.originalPct.None? then Fail
      else
        var row := PredictionRow(
          orig.originalPrice.value, orig.originalPct.value, orig.stabilizedPrice, orig.stabilizedPct,
          if actual then target else None,
          if actual then pct else None,
          if actual then Some(now) else None);
        if !actual then Write((date, h), row, None)
        else if target.None? then Fail
        else if target.value > 0.0 then
          Write((date, h), row, Some(MetricsRowOf(target.value, orig.originalPrice.value, orig.stabilizedPrice, now)))
        else Write((date, h), row, None)
  }

  /**
   * The promises of a single point: rows land under the point's own
   * horizon and anchor date, carry the actual columns exactly when the
   * point is actual, and a metrics row accompanies exactly the actual
   * points with a positive target price.
   */
  lemma EffectRule(p: AccuracyPoint, date: string, originals: map<string, OriginalPrediction>, now: string)
    ensures var e := EffectOf(p, date, originals, now);
      var horizon := GetOpt(p.horizon);
      var actual := TruthyBool(Get(p.isActual, false));
      var target := Get(p.targetPrice, 0.0);
      && (!TruthyString(horizon) ==> e.Skip?)
      && (TruthyString(horizon) ==>
            var orig := OriginalAt(originals, horizon.value);
            && (e.Skip? <==> !TruthyReal(orig.originalPrice))
            && (e.Fail? <==> TruthyReal(orig.originalPrice) && (orig.originalPct.None? || (actual && target.None?))))
      && (e.Write? ==>
            && TruthyString(horizon) && e.key == (date, horizon.value)
            && Some(e.row.originalPrice) == OriginalAt(originals, horizon.value).originalPrice
            && e.row.originalPrice != 0.0
            && (e.row.becameActualAt.Some? <==> actual)
            && (e.row.actualPrice.Some? ==> actual)
            && (actual ==> e.row.actualPrice == target && e.row.becameActualAt == Some(now))
            && (!actual ==> e.row.actualPrice.None? && e.row.actualPct.None?)
            && (e.metrics.Some? <==> actual && target.Some? && target.value > 0.0)
            && (var orig := OriginalAt(originals, horizon.value);
                && e.row.originalPct == orig.originalPct.value
                && e.row.stabilizedPrice == orig.stabilizedPrice
                && e.row.stabilizedPct == orig.stabilizedPct
                && (actual ==> e.row.actualPct == Get(p.pctChange, 0.0))
                && (e.metrics.Some? ==>
                      e.metrics.value == MetricsRowOf(target.value, orig.originalPrice.value, orig.stabilizedPrice, now))))
  {
  }

  /** One upsert step; None is an exception. */
  function Apply(t: Tables, e: PointEffect): Option<Tables> {
    match e
    case Skip => Some(t)
    case Fail => None
    case Write(k, row, m) =>
      var t1 := t.(predictions := t.predictions[k := row]);
      if m.Some? then Some(t1.(metrics := t1.metrics[k := m.value])) else Some(t1)
  }

  /** The effects of the points, in order. */
  function Effects(points: seq<AccuracyPoint>, date: string, originals: map<string, OriginalPrediction>, now: string): (es: seq<PointEffect>)
    ensures |es| == |points|
    ensures forall i :: 0 <= i < |points| ==> es[i] == EffectOf(points[i], date, originals, now)
  {
    seq(|points|, i requires 0 <= i < |points| => EffectOf(points[i], date, originals, now))
  }

  /** The tables after applying `es` in order from `t`; None once any point raised. */
  function ApplyAll(t: Tables, es: seq<PointEffect>): Option<Tables> {
    if es == [] then Some(t)
    else
      var n := |es| - 1;
      var before := ApplyAll(t, es[..n]);
      if before.None? then None else Apply(before.value, es[n])
  }

  datatype Outcome = Skipped | RolledBack | Committed(tables: Tables)

  /** `store_v4_data` on the tables `t`, as a value. */
  function StoreV4(t: Tables, curveData: Option<CurveData>, now: string): Outcome {
    if curveData.None? || !TruthyString(curveData.value.anchorTimestamp) then Skipped
    else
      var cd := curveData.value;
      var ts := cd.anchorTimestamp.value;
      var date := AnchorDate(ts);
      var t1 := t.(anchors := t.anchors[date := AnchorRowOf(cd, ts, now)]);
      var r := ApplyAll(t1, Effects(Points(cd), date, cd.originalPredictions, now));
      if r.None? then RolledBack else Committed(r.value)
  }

  /** The tables once the call returns: the committed ones, or the old ones. */
  function After(t: Tables, o: Outcome): Tables {
    if o.Committed? then o.tables else t
  }

  /** One step's effect on one key of the predictions and metrics tables. */
  lemma ApplyAt(t: Tables, e: PointEffect, k: Key)
    requires Apply(t, e).Some?
    ensures var t2 := Apply(t, e).value;
      && t2.anchors == t.anchors
      && (e.Write? && e.key == k ==> k in t2.predictions && t2.predictions[k] == e.row)
      && (!(e.Write? && e.key == k) ==>
            (k in t2.predictions <==> k in t.predictions) && (k in t.predictions ==> t2.predictions[k] == t.predictions[k]))
      && (e.Write? && e.key == k && e.metrics.Some? ==> k in t2.metrics && t2.metrics[k] == e.metrics.value)
      && (!(e.Write? && e.key == k && e.metrics.Some?) ==>
            (k in t2.metrics <==> k in t.metrics) && (k in t.metrics ==> t2.metrics[k] == t.metrics[k]))
  {
  }

  /** Effect `i` upserts a prediction row under `k`. */
  ghost predicate WritesPrediction(es: seq<PointEffect>, i: int, k: Key) {
    0 <= i < |es| && es[i].Write? && es[i].key == k
  }

  /** Effect `i` upserts a metrics row under `k`. */
  ghost predicate WritesMetrics(es: seq<PointEffect>, i: int, k: Key) {
    WritesPrediction(es, i, k) && es[i].metrics.Some?
  }

  /** The batch raises exactly when one of its points does, whatever the tables hold. */
  lemma {:induction false} ApplyAllFails(t: Tables, es: seq<PointEffect>)
    ensures ApplyAll(t, es).None? <==> exists i :: 0 <= i < |es| && es[i].Fail?
  {
    if es != [] {
      var n := |es| - 1;
      ApplyAllFails(t, es[..n]);
      forall i | 0 <= i < n
        ensures es[..n][i] == es[i]
      {
      }
    }
  }

  /** A key of the predictions table that no point writes keeps its old row, or stays absent. */
  lemma {:induction false} ApplyAllKeepsPrediction(t: Tables, es: seq<PointEffect>, k: Key)
    requires ApplyAll(t, es).Some?
    requires forall i :: 0 <= i < |es| ==> !WritesPrediction(es, i, k)
    ensures var t2 := ApplyAll(t, es).value;
      (k in t2.predictions <==> k in t.predictions) && (k in t.predictions ==> t2.predictions[k] == t.predictions[k])
  {
    if es != [] {
      var n := |es| - 1;
      var init := es[..n];
      forall j | 0 <= j < |init|
        ensures WritesPrediction(init, j, k) == WritesPrediction(es, j, k)
      {
        assert init[j] == es[j];
      }
      ApplyAllKeepsPrediction(t, init, k);
      assert !WritesPrediction(es, n, k);
      ApplyAt(ApplyAll(t, init).value, es[n], k);
    }
  }

  /** Upsert semantics: the last point writing a key of the predictions table decides its row. */
  lemma {:induction false} ApplyAllLastPrediction(t: Tables, es: seq<PointEffect>, k: Key, i: int)
    requires ApplyAll(t, es).Some?
    requires WritesPrediction(es, i, k)
    requires forall j :: i < j < |es| ==> !WritesPrediction(es, j, k)
    ensures var t2 := ApplyAll(t, es).value;
      k in t2.predictions && t2.predictions[k] == es[i].row
  {
    var n := |es| - 1;
    var init := es[..n];
    if i < n {
      forall j | 0 <= j < |init|
        ensures WritesPrediction(init, j, k) == WritesPrediction(es, j, k)
      {
        assert init[j] == es[j];
      }
      assert WritesPrediction(init, i, k);
      ApplyAllLastPrediction(t, init, k, i);
      assert !WritesPrediction(es, n, k);
    }
    ApplyAt(ApplyAll(t, init).value, es[n], k);
  }

  /** A key of the metrics table that no point writes keeps its old row, or stays absent. */
  lemma {:induction false} ApplyAllKeepsMetrics(t: Tables, es: seq<PointEffect>, k: Key)
    requires ApplyAll(t, es).Some?
    requires forall i :: 0 <= i < |es| ==> !WritesMetrics(es, i, k)
    ensures var t2 := ApplyAll(t, es).value;
      (k in t2.metrics <==> k in t.metrics) && (k in t.metrics ==> t2.metrics[k] == t.metrics[k])
  {
    if es != [] {
      var n := |es| - 1;
      var init := es[..n];
      forall j | 0 <= j < |init|
        ensures WritesMetrics(init, j, k) == WritesMetrics(es, j, k)
      {
        assert init[j] == es[j];
      }
      ApplyAllKeepsMetrics(t, init, k);
      assert !WritesMetrics(es, n, k);
      ApplyAt(ApplyAll(t, init).value, es[n], k);
    }
  }

  /** Upsert semantics: the last point writing a key of the metrics table decides its row. */
  lemma {:induction false} ApplyAllLastMetrics(t: Tables, es: seq<PointEffect>, k: Key, i: int)
    requires ApplyAll(t, es).Some?
    requires WritesMetrics(es, i, k)
    requires forall j :: i < j < |es| ==> !WritesMetrics(es, j, k)
    ensures var t2 := ApplyAll(t, es).value;
      k in t2.metrics && t2.metrics[k] == es[i].metrics.value
  {
    var n := |es| - 1;
    var init := es[..n];
    if i < n {
      forall j | 0 <= j < |init|
        ensures WritesMetrics(init, j, k) == WritesMetrics(es, j, k)
      {
        assert init[j] == es[j];
      }
      assert WritesMetrics(init, i, k);
      ApplyAllLastMetrics(t, init, k, i);
      assert !WritesMetrics(es, n, k);
    }
    ApplyAt(ApplyAll(t, init).value, es[n], k);
  }

  /** Every row the walk adds lies under the keys its effects name; no row is removed. */
  lemma {:induction false} ApplyAllKeys(t: Tables, es: seq<PointEffect>, date: string)
    requires ApplyAll(t, es).Some?
    requires forall i :: 0 <= i < |es| && es[i].Write? ==> es[i].key.0 == date
    ensures var t2 := ApplyAll(t, es).value;
      && (forall k :: k in t2.predictions && k !in t.predictions ==> k.0 == date)
      && (forall k :: k in t2.metrics && k !in t.metrics ==> k.0 == date)
      && t.predictions.Keys <= t2.predictions.Keys && t.metrics.Keys <= t2.metrics.Keys
      && t2.anchors == t.anchors
  {
    if es != [] {
      var n := |es| - 1;
      forall i | 0 <= i < n && es[..n][i].Write?
        ensures es[..n][i].key.0 == date
      {
        assert es[..n][i] == es[i];
      }
      ApplyAllKeys(t, es[..n], date);
    }
  }

  /**
   * The three outcomes of `store_v4_data`: nothing happens without a
   * truthy anchor timestamp; otherwise the batch rolls back exactly when a
   * point raises; a committed batch replaces the anchor row of the
   * timestamp's date, leaves every other anchor alone, removes no row and
   * adds rows only under that date.
   */
  lemma StoreV4Rule(t: Tables, curveData: Option<CurveData>, now: string)
    ensures var o := StoreV4(t, curveData, now);
      && (o.Skipped? <==> curveData.None? || !TruthyString(curveData.value.anchorTimestamp))
      && (o.RolledBack? <==> (!o.Skipped? &&
            var cd := curveData.value;
            exists i :: 0 <= i < |Points(cd)| && EffectOf(Points(cd)[i], AnchorDate(cd.anchorTimestamp.value), cd.originalPredictions, now).Fail?))
      && (!o.Committed? ==> After(t, o) == t)
      && (o.Committed? ==>
            var cd := curveData.value;
            var date := AnchorDate(cd.anchorTimestamp.value);
            && o.tables.anchors == t.anchors[date := AnchorRowOf(cd, cd.anchorTimestamp.value, now)]
            && t.predictions.Keys <= o.tables.predictions.Keys && t.metrics.Keys <= o.tables.metrics.Keys
            && (forall k :: k in o.tables.predictions && k !in t.predictions ==> k.0 == date)
            && (forall k :: k in o.tables.metrics && k !in t.metrics ==> k.0 == date))
  {
    if curveData.Some? && TruthyString(curveData.value.anchorTimestamp) {
      var cd := curveData.value;
      var ts := cd.anchorTimestamp.value;
      var date := AnchorDate(ts);
      var t1 := t.(anchors := t.anchors[date := AnchorRowOf(cd, ts, now)]);
      var es := Effects(Points(cd), date, cd.originalPredictions, now);
      ApplyAllFails(t1, es);
      if ApplyAll(t1, es).Some? {
        forall i | 0 <= i < |es| && es[i].Write?
          ensures es[i].key.0 == date
        {
          EffectRule(Points(cd)[i], date, cd.originalPredictions, now);
        }
        ApplyAllKeys(t1, es, date);
      }
    }
  }

  /** The database, its three tables held as maps. */
  class AccuracyStore {
    var anchors: map<string, AnchorRow>
    var predictions: map<Key, PredictionRow>
    var metrics: map<Key, MetricsRow>

    function Contents(): Tables
      reads this
    {
      Tables(anchors, predictions, metrics)
    }

    /** Opening an existing database file with the given contents. */
    constructor (existing: Tables)
      ensures Contents() == existing
    {
      anchors := existing.anchors;
      predictions := existing.predictions;
      metrics := existing.metrics;
    }

    /**
     * `store_v4_data`: upserts step by step inside one transaction; on an
     * exception the saved contents are restored (the rollback).
     */
    method StoreV4Data(curveData: Option<CurveData>, now: string) returns (outcome: Outcome)
      modifies this
      ensures outcome == StoreV4(old(Contents()), curveData, now)
      ensures Contents() == After(old(Contents()), outcome)
    {
      if curveData.None? {
        return Skipped;
      }
      var cd := curveData.value;
      var anchorTimestamp := cd.anchorTimestamp;
      if !TruthyString(anchorTimestamp) {
        return Skipped;
      }
      var ts := anchorTimestamp.value;
      var anchorDate := AnchorDate(ts);
      var saved := Contents();
      anchors := anchors[anchorDate := AnchorRowOf(cd, ts, now)];
      var t1 := Contents();
      var points := Points(cd);
      var originals := cd.originalPredictions;
      ghost var es := Effects(points, anchorDate, originals, now);
      for i := 0 to |points|
        invariant ApplyAll(t1, es[..i]) == Some(Contents())
      {
        assert es[..i + 1][..i] == es[..i];
        var point := points[i];
        var horizon := GetOpt(point.horizon);
        if !TruthyString(horizon) {
          continue;
        }
        var h := horizon.value;
        var targetPrice := Get(point.targetPrice, 0.0);
        var pctChange := Get(point.pctChange, 0.0);
        var isActual := TruthyBool(Get(point.isActual, false));
        var orig := OriginalAt(originals, h);
        if TruthyReal(orig.originalPrice) {
          if orig.originalPct.None? {
            ApplyAllFails(t1, es);
            anchors, predictions, metrics := saved.anchors, saved.predictions, saved.metrics;
            return RolledBack;
          }
          predictions := predictions[(anchorDate, h) := PredictionRow(
            orig.originalPrice.value, orig.originalPct.value, orig.stabilizedPrice, orig.stabilizedPct,
            if isActual then targetPrice else None,
            if isActual then pctChange else None,
            if isActual then Some(now) else None)];
          if isActual {
            if targetPrice.None? {
              ApplyAllFails(t1, es);
              anchors, predictions, metrics := saved.anchors, saved.predictions, saved.metrics;
              return RolledBack;
            }
            if targetPrice.value > 0.0 {
              metrics := metrics[(anchorDate, h) := MetricsRowOf(targetPrice.value, orig.originalPrice.value, orig.stabilizedPrice, now)];
            }
          }
        }
      }
      assert es[..|es|] == es;
      return Committed(Contents());
    }
  }
}
