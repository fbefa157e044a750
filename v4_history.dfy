/**
 * The V4 provider's in-memory prediction-evolution bookkeeping: each
 * successful poll stores a snapshot of the still-pending predictions,
 * the list is trimmed to the last 300 snapshots, and the broadcast curve
 * is annotated with each horizon's evolution count and last stabilized
 * price.
 */
module V4History {
  import opened Json
  import opened V4Types
  import opened PollAlignment

  /** The `predictions` map of a snapshot of `points`: only non-actual points, later points overwriting earlier ones. */
  function SnapshotPredictions(points: seq<V4Point>): map<string, SnapshotPrediction> {
    if points == [] then map[]
    else
      var n := |points| - 1;
      var p := points[n];
      var preds := SnapshotPredictions(points[..n]);
      if p.isActual then preds else preds[p.horizon := SnapshotPrediction(p.targetPrice, p.originalPrice)]
  }

  /** The snapshot `_store_curve_snapshot` builds; `now` is the clock reading. */
  function SnapshotOf(curve: V4Curve, now: string): Snapshot {
    Snapshot(now, curve.header.hoursElapsed, curve.header.anchorTimestamp, SnapshotPredictions(curve.curve))
  }

  /** Point `i` is a still-pending prediction for horizon `h`. */
  ghost predicate Pending(points: seq<V4Point>, i: int, h: string) {
    0 <= i < |points| && points[i].horizon == h && !points[i].isActual
  }

  /**
   * A horizon is in the snapshot exactly when some point of that horizon is
   * not actual, and the stored price and original price come from the last
   * such point.
   */
  lemma {:induction false} SnapshotPredictionsRule(points: seq<V4Point>, h: string)
    ensures h in SnapshotPredictions(points) <==> exists i :: Pending(points, i, h)
    ensures h in SnapshotPredictions(points) ==>
      exists i :: Pending(points, i, h) && (forall j :: i < j < |points| ==> !Pending(points, j, h))
        && SnapshotPredictions(points)[h] == SnapshotPrediction(points[i].targetPrice, points[i].originalPrice)
  {
    if points != [] {
      var n := |points| - 1;
      var init := points[..n];
      var p := points[n];
      SnapshotPredictionsRule(init, h);
      forall i | 0 <= i < n
        ensures Pending(points, i, h) == Pending(init, i, h)
      {
        assert init[i] == points[i];
      }
      if !p.isActual && p.horizon == h {
        assert Pending(points, n, h);
      } else {
        assert !Pending(points, n, h);
        if h in SnapshotPredictions(points) {
          var i :| Pending(init, i, h) && (forall j :: i < j < |init| ==> !Pending(init, j, h))
            && SnapshotPredictions(init)[h] == SnapshotPrediction(init[i].targetPrice, init[i].originalPrice);
          assert Pending(points, i, h);
        }
        if exists i :: Pending(points, i, h) {
          var i :| Pending(points, i, h);
          assert Pending(init, i, h);
        }
      }
    }
  }

  method BuildSnapshot(curve: V4Curve, now: string) returns (snapshot: Snapshot)
    ensures snapshot == SnapshotOf(curve, now)
  {
    var points := curve.curve;
    var predictions: map<string, SnapshotPrediction> := map[];
    for k := 0 to |points|
      invariant predictions == SnapshotPredictions(points[..k])
    {
      assert points[..k + 1][..k] == points[..k];
      var point := points[k];
      if !point.isActual {
        predictions := predictions[point.horizon := SnapshotPrediction(point.targetPrice, point.originalPrice)];
      }
    }
    assert points[..|points|] == points;
    snapshot := Snapshot(now, curve.header.hoursElapsed, curve.header.anchorTimestamp, predictions);
  }

  function Min(a: int, b: int): int {
    if a <= b then a else b
  }

  /** The history after trimming: the most recent `MaxHistorySize` snapshots, in order. */
  function Retain(s: seq<Snapshot>): (r: seq<Snapshot>)
    ensures |r| == Min(|s|, MaxHistorySize)
    ensures r == s[|s| - |r|..]
  {
    if |s| > MaxHistorySize then s[|s| - MaxHistorySize..] else s
  }

  /** The `evolution` list of horizon `h`: one entry per snapshot predicting it, oldest first. */
  function Evolution(history: seq<Snapshot>, h: string): seq<EvolutionEntry> {
    if history == [] then []
    else
      var n := |history| - 1;
      var s := history[n];
      Evolution(history[..n], h) +
        if h in s.predictions then [EvolutionEntry(s.timestamp, s.hoursElapsed, s.predictions[h].price)] else []
  }

  /** The positions of the snapshots that hold a prediction for `h`. */
  ghost function Predicting(history: seq<Snapshot>, h: string): set<int> {
    set i | 0 <= i < |history| && h in history[i].predictions
  }

  /** Entry `e` is what snapshot `s` contributes to the evolution of `h`. */
  ghost predicate Records(s: Snapshot, h: string, e: EvolutionEntry) {
    h in s.predictions && e == EvolutionEntry(s.timestamp, s.hoursElapsed, s.predictions[h].price)
  }

  lemma PredictingSplit(history: seq<Snapshot>, h: string)
    requires history != []
    ensures var n := |history| - 1;
      Predicting(history, h) == Predicting(history[..n], h) + (if h in history[n].predictions then {n} else {})
  {
  }

  /** `evolution_count` is the number of stored snapshots predicting the horizon. */
  lemma {:induction false} EvolutionCount(history: seq<Snapshot>, h: string)
    ensures |Evolution(history, h)| == |Predicting(history, h)| <= |history|
  {
    if history == [] {
      assert Predicting(history, h) == {};
    } else {
      var n := |history| - 1;
      EvolutionCount(history[..n], h);
      PredictingSplit(history, h);
      assert n !in Predicting(history[..n], h);
    }
  }

  /** The evolution holds exactly the entries of the snapshots predicting the horizon. */
  lemma {:induction false} EvolutionEntries(history: seq<Snapshot>, h: string)
    ensures forall e :: e in Evolution(history, h) <==> exists i :: 0 <= i < |history| && Records(history[i], h, e)
  {
    if history != [] {
      var n := |history| - 1;
      var init := history[..n];
      EvolutionEntries(init, h);
      forall e
        ensures e in Evolution(history, h) <==> exists i :: 0 <= i < |history| && Records(history[i], h, e)
      {
        if e in Evolution(history, h) {
          if e in Evolution(init, h) {
            var i :| 0 <= i < n && Records(init[i], h, e);
            assert history[i] == init[i];
          } else {
            assert Records(history[n], h, e);
          }
        }
        if exists i :: 0 <= i < |history| && Records(history[i], h, e) {
          var i :| 0 <= i < |history| && Records(history[i], h, e);
          if i < n {
            assert Records(init[i], h, e);
          }
        }
      }
    }
  }

  /** The last evolution entry comes from the latest snapshot predicting `h`. */
  lemma {:induction false} EvolutionLast(history: seq<Snapshot>, h: string, k: int)
    requires 0 <= k < |history| && h in history[k].predictions
    requires forall j :: k < j < |history| ==> h !in history[j].predictions
    ensures var ev := Evolution(history, h);
      ev != [] && Records(history[k], h, ev[|ev| - 1])
  {
    var n := |history| - 1;
    if k < n {
      assert history[..n][k] == history[k];
      EvolutionLast(history[..n], h, k);
    }
  }

  /** One point of the curve `_add_history_to_curve` returns. */
  function AnnotatePoint(history: seq<Snapshot>, p: V4Point): AnnotatedPoint {
    var ev := Evolution(history, p.horizon);
    var lastStabilized :=
      if ev == [] then None
      else if p.isActual then Some(ev[|ev| - 1].price)
      else Some(p.targetPrice);
    AnnotatedPoint(p, lastStabilized, |ev|)
  }

  /** The curve `_add_history_to_curve` returns for the stored `history`. */
  function Annotate(history: seq<Snapshot>, curve: V4Curve): AnnotatedCurve {
    AnnotatedCurve(curve.header, seq(|curve.curve|, i requires 0 <= i < |curve.curve| => AnnotatePoint(history, curve.curve[i])), |history|)
  }

  /**
   * The annotation of one point: the point itself is kept, its evolution
   * count is the number of snapshots predicting its horizon, and its last
   * stabilized price is absent when there are none, the target price when
   * the horizon is still pending, and otherwise the price of the latest
   * snapshot that predicted it.
   */
  lemma AnnotateRule(history: seq<Snapshot>, curve: V4Curve, i: int)
    requires 0 <= i < |curve.curve|
    ensures var r := Annotate(history, curve);
      var p := curve.curve[i];
      var a := r.curve[i];
      && r.header == curve.header && |r.curve| == |curve.curve| && r.historySize == |history|
      && a.point == p
      && a.evolutionCount == |Predicting(history, p.horizon)|
      && (a.lastStabilizedPrice.None? <==> Predicting(history, p.horizon) == {})
      && (!p.isActual && a.lastStabilizedPrice.Some? ==> a.lastStabilizedPrice == Some(p.targetPrice))
      && (p.isActual && a.lastStabilizedPrice.Some? ==>
            exists k :: 0 <= k < |history| && p.horizon in history[k].predictions
              && (forall j :: k < j < |history| ==> p.horizon !in history[j].predictions)
              && a.lastStabilizedPrice == Some(history[k].predictions[p.horizon].price))
  {
    var p := curve.curve[i];
    var h := p.horizon;
    var ev := Evolution(history, h);
    EvolutionCount(history, h);
    if Predicting(history, h) != {} {
      var k0 :| k0 in Predicting(history, h);
      var k := LatestPredicting(history, h, k0);
      EvolutionLast(history, h, k);
    }
  }

  /** The latest snapshot at or after `k` that predicts `h`. */
  lemma {:induction false} LatestPredictingExists(history: seq<Snapshot>, h: string, k: int)
    requires 0 <= k < |history| && h in history[k].predictions
    ensures exists m :: (k <= m < |history| && h in history[m].predictions
      && forall j :: m < j < |history| ==> h !in history[j].predictions)
    decreases |history| - k
  {
    if exists j :: k < j < |history| && h in history[j].predictions {
      var j :| k < j < |history| && h in history[j].predictions;
      LatestPredictingExists(history, h, j);
    }
  }

  ghost function LatestPredicting(history: seq<Snapshot>, h: string, k: int): (m: int)
    requires 0 <= k < |history| && h in history[k].predictions
    ensures k <= m < |history| && h in history[m].predictions
    ensures forall j :: m < j < |history| ==> h !in history[j].predictions
  {
    LatestPredictingExists(history, h, k);
    var m :| k <= m < |history| && h in history[m].predictions
      && forall j :: m < j < |history| ==> h !in history[j].predictions;
    m
  }

  /**
   * One poll: after the snapshot of `curve` is stored, every pending point
   * of the broadcast curve has an evolution of at least one entry and shows
   * its own target price as last stabilized price.
   */
  lemma StoreThenAnnotatePending(history: seq<Snapshot>, curve: V4Curve, now: string, i: int)
    requires 0 <= i < |curve.curve| && !curve.curve[i].isActual
    ensures var stored := Retain(history + [SnapshotOf(curve, now)]);
      var a := Annotate(stored, curve).curve[i];
      && |stored| <= MaxHistorySize
      && stored[|stored| - 1] == SnapshotOf(curve, now)
      && a.evolutionCount >= 1
      && a.lastStabilizedPrice == Some(curve.curve[i].targetPrice)
  {
    var snap := SnapshotOf(curve, now);
    var full := history + [snap];
    var stored := Retain(full);
    var h := curve.curve[i].horizon;
    assert Pending(curve.curve, i, h);
    SnapshotPredictionsRule(curve.curve, h);
    assert stored[|stored| - 1] == full[|full| - 1] == snap;
    EvolutionLast(stored, h, |stored| - 1);
  }

  /** The sleep after a V4 poll: 5 s later than the mark, so between 6 s and 305 s. */
  function NextPollWait(minute: Minute, second: Second): (w: PollWait)
    ensures 6 <= w.secondsToWait <= 305
    ensures 0 <= w.nextMark < 60 && OnMark(w.nextMark)
    ensures (minute + w.minutesToWait) % 60 == w.nextMark
    ensures forall m :: minute < m < minute + w.minutesToWait ==> !OnMark(m)
    ensures minute >= 55 <==> w.nextMark == 0
    ensures minute >= 55 ==> w.minutesToWait == 60 - minute
  {
    WaitForNextMark(minute, second, 5)
  }

  /** The provider's mutable state: the last curve and the snapshot history. */
  class CurveHistory {
    var lastCurve: Option<V4Curve>
    var history: seq<Snapshot>

    ghost predicate Valid()
      reads this
    {
      |history| <= MaxHistorySize
    }

    constructor ()
      ensures Valid()
      ensures lastCurve == None && history == []
    {
      lastCurve := None;
      history := [];
    }

    /** `_store_curve_snapshot`: append the snapshot, then trim to the newest 300. */
    method StoreCurveSnapshot(curve: V4Curve, now: string)
      requires Valid()
      modifies this
      ensures Valid()
      ensures history == Retain(old(history) + [SnapshotOf(curve, now)])
      ensures lastCurve == old(lastCurve)
    {
      var snapshot := BuildSnapshot(curve, now);
      history := history + [snapshot];
      if |history| > MaxHistorySize {
        history := history[|history| - MaxHistorySize..];
      }
    }

    /** `_add_history_to_curve`: the curve annotated from the stored history. */
    method AddHistoryToCurve(curve: V4Curve) returns (r: AnnotatedCurve)
      ensures r == Annotate(history, curve)
    {
      var points := curve.curve;
      var annotated: seq<AnnotatedPoint> := [];
      for k := 0 to |points|
        invariant |annotated| == k
        invariant forall i :: 0 <= i < k ==> annotated[i] == AnnotatePoint(history, points[i])
      {
        var point := points[k];
        var horizon := point.horizon;
        var evolution: seq<EvolutionEntry> := [];
        for j := 0 to |history|
          invariant evolution == Evolution(history[..j], horizon)
        {
          assert history[..j + 1][..j] == history[..j];
          var snapshot := history[j];
          if horizon in snapshot.predictions {
            evolution := evolution + [EvolutionEntry(snapshot.timestamp, snapshot.hoursElapsed, snapshot.predictions[horizon].price)];
          }
        }
        assert history[..|history|] == history;
        var lastStabilized: Option<real> := None;
        if point.isActual && evolution != [] {
          lastStabilized := Some(evolution[|evolution| - 1].price);
        } else if !point.isActual && evolution != [] {
          lastStabilized := Some(point.targetPrice);
        }
        annotated := annotated + [AnnotatedPoint(point, lastStabilized, |evolution|)];
      }
      r := AnnotatedCurve(curve.header, annotated, |history|);
    }

    /**
     * The body of one poll-loop iteration after the fetch: a fetched curve is
     * remembered, stored as a snapshot and broadcast with its history; a
     * failed fetch, or no broadcast callback, changes nothing.
     */
    method PollStep(fetched: Option<V4Curve>, hasCallback: bool, now: string) returns (broadcast: Option<AnnotatedCurve>)
      requires Valid()
      modifies this
      ensures Valid()
      ensures fetched.Some? && hasCallback ==>
        && lastCurve == fetched
        && history == Retain(old(history) + [SnapshotOf(fetched.value, now)])
        && broadcast == Some(Annotate(history, fetched.value))
      ensures !(fetched.Some? && hasCallback) ==>
        lastCurve == old(lastCurve) && history == old(history) && broadcast == None
    {
      broadcast := None;
      if fetched.Some? && hasCallback {
        lastCurve := fetched;
        StoreCurveSnapshot(fetched.value, now);
        var annotated := AddHistoryToCurve(fetched.value);
        broadcast := Some(annotated);
      }
    }
  }
}
